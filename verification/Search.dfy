/** The alpha-beta engine: fail-soft negamax with null windows and re-search, a direct-mapped
    transposition table, stable move ordering, successor reduction, pooled move buffers, interruption
    and aspiration, proved to return what plain negamax returns.
 */
module Search {
  import opened Animals
  import opened States
  import opened Transition
  import opened Propagators
  import opened Rules
  import opened MoveGeneration
  import opened Invariants
  import opened Evaluation
  import opened Evaluators
  import opened Successors
  import opened Minimax
  import opened SearchTree
  import opened MateDistance
  import opened ForcedWins
  import opened Ordering
  import opened Propagation

  const POOL_SIZE := 256
  const KILLER_PLIES := 64
  const HISTORY_LIMIT := 500_000

  datatype SearchOptions = SearchOptions(
    maxDepth: int, iterativeDeepening: bool, pvs: bool, aspiration: bool, aspirationInitialWindow: int,
    aspirationMaxRetries: int, useTT: bool, ttClearEachMove: bool, ttAge: bool, killers: bool, history: bool,
    historyDecayInterval: nat, optimizedEval: bool, propagationMode: PropagationMode,
    reducer: Option<ReducerOptions>, reducerDisableLowTime: bool)

  /** The move-ordering memory the search fills as it goes. */
  datatype Heuristics = Heuristics(killers: seq<(Move, Move)>, history: map<(Side, int, int), int>)

  datatype SearchResult = SearchResult(bestMove: Move, score: int, hasMove: bool, depthReached: nat, startedDepth: nat,
                                       timeoutHit: bool)

  function Max(a: int, b: int): int { if a > b then a else b }

  function Min(a: int, b: int): int { if a < b then a else b }

  function EvaluatorOf(o: SearchOptions): Evaluator {
    if o.optimizedEval then Optimized else Reference
  }

  function LastDepth(o: SearchOptions): nat {
    Max(1, o.maxDepth)
  }

  /** The exact value of a position at a depth, and a legal move worth that much. */
  ghost predicate IsRootResult(ev: Evaluator, s: State, depth: nat, move: Move, score: int)
    requires Shaped(s) && depth > 0
  {
    score == Value(ev, s, depth, 0) && move in LegalMoves(s) && MoveValue(ev, s, move, depth, 0) == score
  }

  /** A fail-soft answer for the root and, inside the window, a move that attains it. */
  ghost predicate RootAnswer(ev: Evaluator, s: State, depth: nat, move: Move, score: int, alpha: int, beta: int)
    requires Shaped(s) && depth > 0
  {
    && FailSoft(score, Value(ev, s, depth, 0), alpha, beta) && -MATE_SCORE <= score <= MATE_SCORE
    && move in LegalMoves(s) && (alpha < score < beta ==> MoveValue(ev, s, move, depth, 0) == score)
  }

  /** What a result may say: the deepest completed iteration, or the first legal move. */
  ghost predicate Answers(ev: Evaluator, s: State, o: SearchOptions, r: SearchResult)
    requires Shaped(s) && LegalMoves(s) != []
  {
    && r.depthReached <= LastDepth(o)
    && (r.depthReached > 0 ==> IsRootResult(ev, s, r.depthReached, r.bestMove, r.score))
    && (r.depthReached == 0 ==> r.bestMove == LegalMoves(s)[0] && r.score == StaticScore(ev, s))
  }

  /** The depth reached is the last one completed: the one before an interrupted iteration, otherwise the
      last one started. */
  predicate LastCompleted(o: SearchOptions, r: SearchResult) {
    && r.startedDepth > 0
    && (r.timeoutHit ==> r.depthReached == if o.iterativeDeepening then r.startedDepth - 1 else 0)
    && (!r.timeoutHit && o.aspirationMaxRetries >= 0 ==> r.depthReached == r.startedDepth)
  }

  lemma RootIsReachable(root: State)
    ensures Reachable(root, root, 0)
  {
  }

  lemma TerminalHasNoMoves(s: State)
    requires Shaped(s)
    ensures s.terminal != Ongoing ==> LegalMoves(s) == []
  {
    hide LegalMoves, IsPseudoLegal;
    if s.terminal != Ongoing && LegalMoves(s) != [] {
      LegalMember(s, LegalMoves(s)[0]);
      PseudoLegalIsOngoing(s, LegalMoves(s)[0]);
    }
  }

  /** A mate found at one depth is the result of every greater depth, by the same move. */
  lemma MateStops(ev: Evaluator, s: State, depth: nat, last: nat, move: Move, score: int)
    requires Searchable(s) && Shaped(s) && 0 < depth <= last && IsRootResult(ev, s, depth, move, score)
    requires score >= MATE_SCORE - MATE_STOP_MARGIN || score <= -(MATE_SCORE - MATE_STOP_MARGIN)
    ensures IsRootResult(ev, s, last, move, score)
  {
    hide LegalMoves, Searchable, Value, MoveValue, Node;
    RootIsNode(s);
    MateIsFinal(ev, s, s, depth, last, 0);
    MoveForesees(ev, s, s, move, depth, last, 0);
  }

  lemma FinishedRoot(s: State)
    ensures WinsFor(s, s.sideToMove) ==> s.terminal != Ongoing && TerminalScore(s, 0) == 1_000_000
    ensures WinsFor(s, s.sideToMove.Opposite()) ==> s.terminal != Ongoing && TerminalScore(s, 0) == -1_000_000
    ensures s.terminal == Draw ==> TerminalScore(s, 0) == 0
  {
    assert s.sideToMove.South? || s.sideToMove.North?;
  }

  lemma RootReports(ev: Evaluator, s: State, depth: nat, move: Move, score: int)
    requires Searchable(s) && Shaped(s) && s.terminal == Ongoing && depth > 0 && IsRootResult(ev, s, depth, move, score)
    ensures Reports(s, depth, move, score)
  {
    hide Value, LegalMoves, Searchable, MoveValue, Reports;
    ResultReports(ev, s, depth, move, score);
  }

  /** One cell grows by a bonus up to the cap, the others stay, and with decay all are halved afterwards. */
  predicate Grown(before: map<(Side, int, int), int>, after: map<(Side, int, int), int>, index: (Side, int, int),
                  bonus: int, decay: bool)
  {
    && after.Keys == before.Keys + {index}
    && forall i :: i in after ==>
         var cell := if i in before then before[i] else 0;
         var grown := if i == index then Min(HISTORY_LIMIT, cell + bonus) else cell;
         after[i] == if decay then grown / 2 else grown
  }

  /** The moves of a node with the scores the ordering memory gives them. */
  function Scores(orderScore: (State, Move, Move, int, Heuristics) -> int, s: State, moves: seq<Move>, ttMove: Move,
                  ply: nat, memory: Heuristics): seq<Scored>
  {
    seq(|moves|, i requires 0 <= i < |moves| => Scored(orderScore(s, moves[i], ttMove, ply, memory), moves[i]))
  }

  /** An entry keeps its slot if it is a deeper one of this search for another position, or a deeper exact
      one for the same position. */
  predicate Defends(e: TTEntry, key: int, depth: int, age: int) {
    || (e.key != 0 && e.key != key && e.age == age && e.depth > depth)
    || (e.key == key && e.depth > depth && e.flag == Exact)
  }

  class AlphaBetaEngine {
    const table: array<TTEntry>
    const movePool: array<seq<Move>>
    const scratch: EvalScratch
    const rules: RuleTables
    const evalTables: EvalTables
    /** The 64-bit key of the hashed fields, the move-ordering score, and the stopping and timing oracles. */
    const zobrist: Hash -> int
    const orderScore: (State, Move, Move, int, Heuristics) -> int
    const stopPolicy: (int, int) -> bool
    const hardReached: int -> bool
    const softReached: int -> bool

    var options: SearchOptions
    var stopped: bool
    var searchedNodes: nat
    var ticks: nat
    var age: int
    var killers: seq<(Move, Move)>
    var history: map<(Side, int, int), int>
    var historyUpdates: nat
    /** The position being searched for and the depth of the current iteration. */
    ghost var root: State
    ghost var target: nat

    ghost predicate Valid() {
      table.Length > 0 && movePool.Length == POOL_SIZE && ValidTables(rules) && ValidEvalTables(evalTables)
    }

    /** Which evaluator the options ask for. */
    function Kind(): Evaluator
      reads this`options
    {
      EvaluatorOf(options)
    }

    /** The stop policy and the hard deadline never fire. */
    ghost predicate NeverStops() {
      (forall n, k :: !stopPolicy(n, k)) && (forall k :: !hardReached(k))
    }

    /** The stop policy fires at the first test. */
    ghost predicate StopsAtOnce() {
      forall n, k :: stopPolicy(n, k)
    }

    /** The soft deadline has passed from the start. */
    ghost predicate HurriesAtOnce() {
      forall k :: softReached(k)
    }

    /** No stop, no soft deadline, and retries allowed. */
    ghost predicate Undisturbed(o: SearchOptions) {
      NeverStops() && (forall k :: !softReached(k)) && o.aspirationMaxRetries >= 0
    }

    ghost predicate TableSound()
      reads this`root, this`target, this`options, table
    {
      forall i :: 0 <= i < table.Length ==> EntrySound(Kind(), table[i], zobrist, root, target)
    }

    ghost predicate Searching()
      reads this`root, this`target, this`options, table
    {
      && Valid() && Searchable(root) && root.terminal == Ongoing
      && NoCollision(zobrist, root) && TableSound()
    }

    function Slot(key: int): int
      requires table.Length > 0
    {
      key % table.Length
    }

    constructor (entries: nat, rules: RuleTables, evalTables: EvalTables, zobrist: Hash -> int,
                 orderScore: (State, Move, Move, int, Heuristics) -> int,
                 stopPolicy: (int, int) -> bool, hardReached: int -> bool, softReached: int -> bool,
                 options: SearchOptions)
      requires entries > 0 && ValidTables(rules) && ValidEvalTables(evalTables)
      ensures Valid() && fresh(this) && fresh(table) && fresh(movePool) && fresh(scratch)
      ensures forall i :: 0 <= i < table.Length ==> table[i] == EMPTY_ENTRY
    {
      this.table := new TTEntry[entries](_ => EMPTY_ENTRY);
      this.movePool := new seq<Move>[POOL_SIZE](_ => []);
      this.scratch := new EvalScratch();
      this.rules, this.evalTables, this.zobrist, this.orderScore := rules, evalTables, zobrist, orderScore;
      this.stopPolicy, this.hardReached, this.softReached := stopPolicy, hardReached, softReached;
      this.options := options;
      stopped, searchedNodes, ticks, age, historyUpdates := false, 0, 0, 0, 0;
      killers, history := [], map[];
    }

    method ClearTable()
      requires Valid()
      modifies table
      ensures forall i :: 0 <= i < table.Length ==> table[i] == EMPTY_ENTRY
    {
      for i := 0 to table.Length
        invariant forall j :: 0 <= j < i ==> table[j] == EMPTY_ENTRY
      {
        table[i] := EMPTY_ENTRY;
      }
    }

    method ShouldStop() returns (stop: bool)
      modifies this`stopped, this`ticks
      ensures stop == stopped && (old(stopped) ==> stopped)
      ensures !old(stopped) ==>
                (stopped <==> stopPolicy(searchedNodes, ticks) || (searchedNodes % 64 == 0 && hardReached(ticks)))
      ensures NeverStops() && !old(stopped) ==> !stopped
    {
      if stopped {
        return true;
      }
      ticks := ticks + 1;
      if stopPolicy(searchedNodes, ticks) {
        stopped := true;
        return true;
      }
      if searchedNodes % 64 == 0 {
        if hardReached(ticks) {
          stopped := true;
        }
      }
      stop := stopped;
    }

    /** Replaces the slot of a key unless a deeper entry of this search must stay. */
    method Store(s: State, depth: nat, score: int, bound: BoundType, move: Move, ply: nat)
      requires Searching() && Reachable(root, s, ply) && depth > 0 && ply + depth == target
      requires -MATE_SCORE <= score <= MATE_SCORE && Holds(bound, score, Value(Kind(), s, depth, ply))
      requires !stopped
      modifies table
      ensures TableSound()
      ensures forall i :: 0 <= i < table.Length && i != Slot(zobrist(s.hash)) ==> table[i] == old(table[i])
      ensures var old' := old(table[Slot(zobrist(s.hash))]);
              table[Slot(zobrist(s.hash))] ==
                if !options.useTT || Defends(old', zobrist(s.hash), depth, age) then old'
                else TTEntry(zobrist(s.hash), ScoreToTT(score, ply), ToInt16(depth), PackMove(move), bound, age)
    {
      hide Reachable, Value, Searchable, ScoreToTT, PackMove, ToInt16, Claim;
      if !options.useTT {
        return;
      }
      var key := zobrist(s.hash);
      var slot := Slot(key);
      var entry := table[slot];
      if entry.key != 0 && entry.key != key && entry.age == age && entry.depth > depth {
        return;
      }
      if entry.key == key && entry.depth > depth && entry.flag == Exact {
        return;
      }
      assert !Defends(entry, key, depth, age);
      var stored := TTEntry(key, ScoreToTT(score, ply), ToInt16(depth), PackMove(move), bound, age);
      StoredEntrySound(Kind(), stored, zobrist, root, target, s, ply, score);
      hide EntrySound, NoCollision, Holds;
      table[slot] := stored;
    }

    /** Reads the slot of a position: a usable entry answers or narrows the window, any entry of the key
        names a move to try first. */
    method Probe(s: State, depth: nat, alpha: int, beta: int, ply: nat)
      returns (answered: bool, score: int, ttMove: Move, alpha': int, beta': int)
      requires Searching() && Reachable(root, s, ply) && depth > 0 && ply + depth == target && alpha < beta
      ensures answered ==>
                FailSoft(score, Value(Kind(), s, depth, ply), alpha, beta) && -MATE_SCORE <= score <= MATE_SCORE
      ensures !answered ==> alpha <= alpha' < beta' <= beta
      ensures !answered && alpha' > alpha ==> Value(Kind(), s, depth, ply) >= alpha'
      ensures !answered && beta' < beta ==> Value(Kind(), s, depth, ply) <= beta'
      ensures var entry := table[Slot(zobrist(s.hash))]; var hit := options.useTT && entry.key == zobrist(s.hash);
              && ttMove == (if hit then UnpackMove(entry.move16) else NO_MOVE)
              && (!hit || entry.depth < depth ==> !answered && alpha' == alpha && beta' == beta)
              && (hit && entry.depth >= depth ==>
                    && score == ScoreFromTT(entry.score, ply)
                    && alpha' == (if entry.flag == Lower then Max(alpha, score) else alpha)
                    && beta' == (if entry.flag == Upper then Min(beta, score) else beta)
                    && (answered <==> entry.flag == Exact || alpha' >= beta'))
    {
      hide Reachable, Value, Searchable, NoCollision, ScoreFromTT, UnpackMove;
      answered, score, ttMove, alpha', beta' := false, 0, NO_MOVE, alpha, beta;
      if !options.useTT {
        return;
      }
      var key := zobrist(s.hash);
      var entry := table[Slot(key)];
      if entry.key != key {
        return;
      }
      ttMove := UnpackMove(entry.move16);
      if entry.depth < depth {
        return;
      }
      assert Claim(Kind(), entry, s, ply, target);
      score := ScoreFromTT(entry.score, ply);
      if entry.flag == Exact {
        answered := true;
        return;
      }
      if entry.flag == Lower && score > alpha' {
        alpha' := score;
      }
      if entry.flag == Upper && score < beta' {
        beta' := score;
      }
      answered := alpha' >= beta';
    }

    method GenerateSearchMoves(s: State, ttMove: Move, depth: nat) returns (moves: seq<Move>)
      requires Valid() && Shaped(s)
      modifies this`ticks
      ensures Covers(s, LegalMoves(s), moves) && (options.reducer.None? ==> moves == LegalMoves(s))
    {
      hide Apply, LegalMoves, IsPseudoLegal, LeadsTo;
      moves := GenerateLegalMoves(s, options.propagationMode, rules);
      forall m | m in moves
        ensures m.Valid() && Apply(s, m).Some?
      {
        LegalMember(s, m);
        PseudoLegalIsValid(s, m);
      }
      if options.reducer.Some? {
        ticks := ticks + 1;
        var lowTime := options.reducerDisableLowTime && softReached(ticks);
        var applied;
        moves, applied := ReduceSuccessors(s, moves, ttMove, options.reducer.value, depth, lowTime, rules);
      }
    }

    method OrderMoves(s: State, moves: seq<Move>, ttMove: Move, ply: nat) returns (ordered: seq<Move>)
      ensures multiset(ordered) == multiset(moves)
      ensures exists sorted :: ordered == MovesOf(sorted) &&
                IsStableSort(Scores(orderScore, s, moves, ttMove, ply, Heuristics(killers, history)), sorted)
    {
      var memory := Heuristics(killers, history);
      var scored: seq<Scored> := [];
      for i := 0 to |moves|
        invariant scored == Scores(orderScore, s, moves, ttMove, ply, memory)[..i]
      {
        scored := scored + [Scored(orderScore(s, moves[i], ttMove, ply, memory), moves[i])];
      }
      assert scored == Scores(orderScore, s, moves, ttMove, ply, memory);
      var sorted := StableSort(scored);
      SameMovesOf(scored, sorted);
      ordered := MovesOf(sorted);
      assert MovesOf(scored) == moves;
    }

    method EvaluateSearch(s: State) returns (score: int)
      requires Valid() && Shaped(s)
      modifies scratch
      ensures score == StaticScore(Kind(), s)
    {
      hide StaticScore, Coherent, Custody;
      if options.optimizedEval {
        score := EvaluateOptimized(s, scratch, rules, evalTables);
      } else {
        score := EvaluateBaseline(s, rules);
      }
    }

    /** Killer and history updates after a cut: only a quiet move is remembered, as the first killer of its
        ply; its history cell grows to at most the cap, and every so many updates all cells are halved. */
    method RecordCutoff(s: State, move: Move, depth: nat, ply: nat)
      requires Shaped(s) && move.Valid()
      modifies this`killers, this`history, this`historyUpdates
      ensures var quiet := s.board[move.to] == EMPTY_SQUARE; var index := (s.sideToMove, move.from, move.to);
              && killers == (if quiet && options.killers && ply < |old(killers)| && old(killers)[ply].0 != move
                             then old(killers)[ply := (move, old(killers)[ply].0)] else old(killers))
              && historyUpdates == old(historyUpdates) + (if quiet && options.history then 1 else 0)
              && (!(quiet && options.history) ==> history == old(history))
              && (quiet && options.history ==> Grown(old(history), history, index, depth * depth * 64, DecayDue()))
    {
      var quiet := s.board[move.to] == EMPTY_SQUARE;
      if quiet && options.killers && ply < |killers| && killers[ply].0 != move {
        killers := killers[ply := (move, killers[ply].0)];
      }
      if quiet && options.history {
        GrowHistory((s.sideToMove, move.from, move.to), depth * depth * 64);
      }
    }

    method GrowHistory(index: (Side, int, int), bonus: int)
      modifies this`history, this`historyUpdates
      ensures historyUpdates == old(historyUpdates) + 1
      ensures Grown(old(history), history, index, bonus, DecayDue())
    {
      var value := (if index in history then history[index] else 0) + bonus;
      history := history[index := Min(HISTORY_LIMIT, value)];
      historyUpdates := historyUpdates + 1;
      if options.historyDecayInterval > 0 && historyUpdates % options.historyDecayInterval == 0 {
        history := map i | i in history :: history[i] / 2;
      }
    }

    predicate DecayDue()
      reads this`options, this`historyUpdates
    {
      options.historyDecayInterval > 0 && historyUpdates % options.historyDecayInterval == 0
    }

    // -------------------------------------------------------------- the search

    /** Fills a pooled buffer with the kept moves of a node, ordered. There are none exactly when the side
        is blocked; otherwise their best is the value of the node. */
    method FillBuffer(s: State, slot: int, ttMove: Move, depth: nat, ply: nat)
      requires Valid() && Agree(s) && s.terminal == Ongoing && depth > 0 && 0 <= slot < POOL_SIZE
      modifies movePool, this`ticks
      ensures forall k :: 0 <= k < POOL_SIZE && k != slot ==> movePool[k] == old(movePool[k])
      ensures movePool[slot] == [] <==> LegalMoves(s) == []
      ensures movePool[slot] == [] ==> Value(Kind(), s, depth, ply) == -MATE_SCORE + ply
      ensures movePool[slot] != [] ==> IsBest(Kind(), s, movePool[slot], depth, ply, Value(Kind(), s, depth, ply))
      ensures forall m :: m in movePool[slot] ==> m in LegalMoves(s)
    {
      hide LegalMoves, Value, MoveValue, IsBest, Covers, IsStableSort, Apply;
      var moves := GenerateSearchMoves(s, ttMove, depth);
      movePool[slot] := moves;
      KeptMoves(Kind(), s, moves, depth, ply);
      if movePool[slot] == [] {
        return;
      }
      var ordered := OrderMoves(s, movePool[slot], ttMove, ply);
      movePool[slot] := ordered;
      ReorderedBest(Kind(), s, moves, ordered, depth, ply, Value(Kind(), s, depth, ply));
    }

    /** One child: a full window for the first move, otherwise a null window and, if that neither fails
        low nor cuts, a re-search. */
    method SearchChild(state: Position, depth: nat, alpha: int, beta: int, ply: nat, first: bool) returns (score: int)
      requires Searching() && Reachable(root, state.Snapshot(), ply + 1) && depth > 0 && ply + depth == target
      requires -SEARCH_INFINITY <= alpha < beta <= SEARCH_INFINITY
      modifies state, table, movePool, scratch
      modifies this`stopped, this`searchedNodes, this`ticks, this`killers, this`history, this`historyUpdates
      ensures Searching() && state.Snapshot() == old(state.Snapshot())
      ensures forall k :: 0 <= k < POOL_SIZE && k <= ply ==> movePool[k] == old(movePool[k])
      ensures !stopped ==> FailSoft(score, -Value(Kind(), state.Snapshot(), depth - 1, ply + 1), alpha, beta)
      ensures !stopped ==> -MATE_SCORE <= score <= MATE_SCORE
      ensures (old(stopped) ==> stopped) && (NeverStops() && !old(stopped) ==> !stopped)
      decreases depth, 0
    {
      hide Reachable, Value, Searchable, NoCollision, EntrySound;
      if first || !options.pvs {
        var r := Negamax(state, depth - 1, -beta, -alpha, ply + 1);
        score := -r;
      } else {
        var r := Negamax(state, depth - 1, -alpha - 1, -alpha, ply + 1);
        score := -r;
        if !stopped && alpha < score < beta {
          r := Negamax(state, depth - 1, -beta, -alpha, ply + 1);
          score := -r;
        }
      }
    }

    /** All kept moves of a node in order, cutting at beta. The moves are read from the pooled buffer of
        the node's ply, which the children must leave alone. */
    method SearchMoves(state: Position, depth: nat, alpha: int, beta: int, ply: nat, ghost moves: seq<Move>)
      returns (best: int, bestMove: Move)
      requires Searching() && Reachable(root, state.Snapshot(), ply) && depth > 0 && ply + depth == target
      requires -SEARCH_INFINITY <= alpha < beta <= SEARCH_INFINITY
      requires Shaped(state.Snapshot()) && ply < POOL_SIZE && movePool[ply] == moves && moves != []
      requires forall m :: m in moves ==> m in LegalMoves(state.Snapshot())
      requires IsBest(Kind(), state.Snapshot(), moves, depth, ply, Value(Kind(), state.Snapshot(), depth, ply))
      requires !stopped
      modifies state, table, movePool, scratch
      modifies this`stopped, this`searchedNodes, this`ticks, this`killers, this`history, this`historyUpdates
      ensures Searching() && state.Snapshot() == old(state.Snapshot())
      ensures forall k :: 0 <= k < POOL_SIZE && k <= ply ==> movePool[k] == old(movePool[k])
      ensures !stopped ==> FailSoft(best, Value(Kind(), state.Snapshot(), depth, ply), alpha, beta)
      ensures !stopped ==> -MATE_SCORE <= best <= MATE_SCORE && bestMove in moves
      ensures !stopped && alpha < best < beta ==> MoveValue(Kind(), state.Snapshot(), bestMove, depth, ply) == best
      ensures NeverStops() ==> !stopped
      decreases depth, 1
    {
      hide Reachable, Value, Searchable, NoCollision, EntrySound, LegalMoves, Apply, MoveValue, IsBest, BestSoFar,
           FailSoft;
      ghost var s := state.Snapshot();
      ghost var v := Value(Kind(), s, depth, ply);
      best, bestMove := -SEARCH_INFINITY, NO_MOVE;
      var first := true;
      var bound := alpha;
      var index := 0;
      NothingTried(Kind(), s, moves, depth, ply, alpha, best);
      while index < |movePool[ply]|
        invariant 0 <= index <= |moves| && Searching() && state.Snapshot() == s && !stopped
        invariant forall k :: 0 <= k < POOL_SIZE && k <= ply ==> movePool[k] == old(movePool[k])
        invariant bound == (if best > alpha then best else alpha) && bound < beta
        invariant BestSoFar(Kind(), s, moves, index, depth, ply, alpha, best)
        invariant index == 0 ==> best == -SEARCH_INFINITY
        invariant -SEARCH_INFINITY <= best && (index > 0 ==> -MATE_SCORE <= best <= MATE_SCORE && bestMove in moves)
        invariant best > alpha ==> index > 0 && MoveValue(Kind(), s, bestMove, depth, ply) == best
        decreases |moves| - index
      {
        var move := movePool[ply][index];
        assert move in moves;
        ReachableChild(root, s, ply, move);
        var applied, undo := ApplyMove(state, move, options.propagationMode, rules);
        if applied {
          var score := SearchChild(state, depth, bound, beta, ply, first);
          UndoMove(state, undo);
          if stopped {
            return 0, bestMove;
          }
          MoveValueIsNegated(Kind(), s, move, depth, ply);
          if score >= beta {
            CutSettles(Kind(), s, moves, index, depth, ply, bound, beta, score, v);
            LegalIsValid(s, move);
            RecordCutoff(state.Snapshot(), move, depth, ply);
            CutIsFailSoft(score, v, alpha, beta);
            return score, move;
          }
          BestGrows(Kind(), s, moves, index, depth, ply, alpha, best, score, beta);
          InsideIsExact(score, MoveValue(Kind(), s, move, depth, ply), bound, beta);
          if score > best {
            best := score;
            bestMove := move;
          }
          if score > bound {
            bound := score;
          }
          first := false;
        } else {
          assert false;
        }
        index := index + 1;
      }
      AllTried(Kind(), s, moves, depth, ply, alpha, best, beta, v);
    }

    /** A node the table has not answered: its moves are generated, searched in the narrowed window, and
        the outcome stored with the flag that is true for it. */
    method SearchInside(state: Position, depth: nat, alpha: int, beta: int, alpha': int, beta': int, ply: nat,
                        ttMove: Move)
      returns (score: int)
      requires Searching() && Reachable(root, state.Snapshot(), ply) && ply + depth == target && depth > 0 && !stopped
      requires -SEARCH_INFINITY <= alpha <= alpha' < beta' <= beta <= SEARCH_INFINITY
      requires Agree(state.Snapshot()) && state.terminal == Ongoing && ply < POOL_SIZE
      requires alpha' > alpha ==> Value(Kind(), state.Snapshot(), depth, ply) >= alpha'
      requires beta' < beta ==> Value(Kind(), state.Snapshot(), depth, ply) <= beta'
      requires -MATE_SCORE <= Value(Kind(), state.Snapshot(), depth, ply) <= MATE_SCORE
      modifies state, table, movePool, scratch
      modifies this`stopped, this`searchedNodes, this`ticks, this`killers, this`history, this`historyUpdates
      ensures Searching() && state.Snapshot() == old(state.Snapshot())
      ensures forall k :: 0 <= k < POOL_SIZE && k < ply ==> movePool[k] == old(movePool[k])
      ensures !stopped ==> FailSoft(score, Value(Kind(), state.Snapshot(), depth, ply), alpha, beta)
      ensures !stopped ==> -MATE_SCORE <= score <= MATE_SCORE
      ensures NeverStops() ==> !stopped
      decreases depth, 2
    {
      hide Reachable, Searchable, NoCollision, EntrySound, LegalMoves, MoveValue, IsBest, Holds, Value, FailSoft;
      ghost var v := Value(Kind(), state.Snapshot(), depth, ply);
      var slot := Min(ply, POOL_SIZE - 1);
      FillBuffer(state.Snapshot(), slot, ttMove, depth, ply);
      if movePool[slot] == [] {
        ExactIsFailSoft(v, alpha, beta);
        return -MATE_SCORE + ply;
      }
      var best, bestMove := SearchMoves(state, depth, alpha', beta', ply, movePool[slot]);
      if stopped {
        return 0;
      }
      NarrowedWindow(best, v, alpha, beta, alpha', beta');
      var bound := if best <= alpha then Upper else if best >= beta' then Lower else Exact;
      Store(state.Snapshot(), depth, best, bound, bestMove, ply);
      score := best;
    }

    /** A node: fail-soft, whatever the window, the table and the order of moves did. */
    method Negamax(state: Position, depth: nat, alpha: int, beta: int, ply: nat) returns (score: int)
      requires Searching() && Reachable(root, state.Snapshot(), ply) && ply + depth == target
      requires -SEARCH_INFINITY <= alpha < beta <= SEARCH_INFINITY
      modifies state, table, movePool, scratch
      modifies this`stopped, this`searchedNodes, this`ticks, this`killers, this`history, this`historyUpdates
      ensures Searching() && state.Snapshot() == old(state.Snapshot())
      ensures forall k :: 0 <= k < POOL_SIZE && k < ply ==> movePool[k] == old(movePool[k])
      ensures !stopped ==> FailSoft(score, Value(Kind(), state.Snapshot(), depth, ply), alpha, beta)
      ensures !stopped ==> -MATE_SCORE <= score <= MATE_SCORE
      ensures (old(stopped) ==> stopped) && (NeverStops() && !old(stopped) ==> !stopped)
      decreases depth, 3
    {
      hide Reachable, Searchable, NoCollision, EntrySound, LegalMoves, StaticScore, TerminalScore, Value, FailSoft;
      searchedNodes := searchedNodes + 1;
      var stop := ShouldStop();
      if stop {
        return 0;
      }
      ghost var s := state.Snapshot();
      ghost var v := Value(Kind(), s, depth, ply);
      NodeIsBounded(Kind(), root, s, depth, ply);
      ExactIsFailSoft(v, alpha, beta);
      if state.terminal != Ongoing {
        TerminalValue(Kind(), s, depth, ply);
        return TerminalScore(state.Snapshot(), ply);
      }
      OngoingPly(root, s, ply);
      if depth == 0 {
        LeafValue(Kind(), s, ply);
        score := EvaluateSearch(state.Snapshot());
        return;
      }
      var answered, tableScore, ttMove, alpha', beta' := Probe(state.Snapshot(), depth, alpha, beta, ply);
      if answered {
        return tableScore;
      }
      score := SearchInside(state, depth, alpha, beta, alpha', beta', ply, ttMove);
    }

    /** The kept root moves in order, with a stop test before each one. */
    method TryRootMoves(state: Position, depth: nat, alpha: int, beta: int, ghost moves: seq<Move>)
      returns (completed: bool, best: int, localBest: Move)
      requires Searching() && state.Snapshot() == root && Shaped(root) && target == depth > 0 && !stopped
      requires -SEARCH_INFINITY <= alpha < beta <= SEARCH_INFINITY
      requires Reachable(root, root, 0) && movePool[0] == moves && moves != []
      requires forall m :: m in moves ==> m in LegalMoves(root)
      requires IsBest(Kind(), root, moves, depth, 0, Value(Kind(), root, depth, 0))
      modifies state, table, movePool, scratch
      modifies this`stopped, this`searchedNodes, this`ticks, this`killers, this`history, this`historyUpdates
      ensures Searching() && state.Snapshot() == old(state.Snapshot())
      ensures completed == !stopped && (NeverStops() ==> completed) && (StopsAtOnce() ==> !completed)
      ensures completed ==> RootAnswer(Kind(), root, depth, localBest, best, alpha, beta)
      ensures completed ==>
                FailSoft(best, Value(Kind(), root, depth, 0), alpha, beta) && -MATE_SCORE <= best <= MATE_SCORE
    {
      hide Reachable, Value, Searchable, NoCollision, EntrySound, LegalMoves, Apply, MoveValue, IsBest, BestSoFar,
           FailSoft;
      ghost var v := Value(Kind(), root, depth, 0);
      best, localBest := -SEARCH_INFINITY, movePool[0][0];
      assert localBest in moves;
      var first, bound, index := true, alpha, 0;
      NothingTried(Kind(), root, moves, depth, 0, alpha, best);
      while index < |movePool[0]|
        invariant 0 <= index <= |moves| && Searching() && state.Snapshot() == root && !stopped
        invariant movePool[0] == moves && localBest in moves
        invariant bound == (if best > alpha then best else alpha) && bound < beta
        invariant BestSoFar(Kind(), root, moves, index, depth, 0, alpha, best)
        invariant index == 0 ==> best == -SEARCH_INFINITY
        invariant -SEARCH_INFINITY <= best && (index > 0 ==> -MATE_SCORE <= best <= MATE_SCORE)
        invariant best > alpha ==> index > 0 && MoveValue(Kind(), root, localBest, depth, 0) == best
        invariant index > 0 ==> !StopsAtOnce()
        decreases |moves| - index
      {
        var stop := ShouldStop();
        if stop {
          return false, best, localBest;
        }
        var move := movePool[0][index];
        assert move in moves;
        ReachableChild(root, root, 0, move);
        var applied, undo := ApplyMove(state, move, options.propagationMode, rules);
        if applied {
          var score := SearchChild(state, depth, bound, beta, 0, first);
          UndoMove(state, undo);
          if stopped {
            return false, best, localBest;
          }
          MoveValueIsNegated(Kind(), root, move, depth, 0);
          if score >= beta {
            CutSettles(Kind(), root, moves, index, depth, 0, bound, beta, score, v);
            CutIsFailSoft(score, v, alpha, beta);
            return true, score, move;
          }
          BestGrows(Kind(), root, moves, index, depth, 0, alpha, best, score, beta);
          InsideIsExact(score, MoveValue(Kind(), root, move, depth, 0), bound, beta);
          if score > best {
            best := score;
            localBest := move;
          }
          if score > bound {
            bound := score;
          }
          first := false;
        } else {
          assert false;
        }
        index := index + 1;
      }
      AllTried(Kind(), root, moves, depth, 0, alpha, best, beta, v);
      completed := true;
    }

    /** The root, where the table only names a move to try first. A completed search answers for the
        window; an abandoned one leaves the caller's move and score as they were. */
    method SearchRoot(state: Position, depth: nat, alpha: int, beta: int, lastMove: Move, lastScore: int)
      returns (completed: bool, bestMove: Move, bestScore: int)
      requires Searching() && state.Snapshot() == root && Shaped(root) && target == depth > 0 && !stopped
      requires -SEARCH_INFINITY <= alpha < beta <= SEARCH_INFINITY
      modifies state, table, movePool, scratch
      modifies this`stopped, this`searchedNodes, this`ticks, this`killers, this`history, this`historyUpdates
      ensures Searching() && state.Snapshot() == old(state.Snapshot())
      ensures completed == !stopped && (NeverStops() ==> completed)
      ensures StopsAtOnce() && LegalMoves(root) != [] ==> !completed
      ensures !completed || LegalMoves(root) == [] ==> bestMove == lastMove && bestScore == lastScore
      ensures completed && LegalMoves(root) != [] ==> RootAnswer(Kind(), root, depth, bestMove, bestScore, alpha, beta)
    {
      hide Reachable, Value, Searchable, NoCollision, EntrySound, LegalMoves, Apply, MoveValue, IsBest, BestSoFar,
           FailSoft, Holds, Covers, StaticScore, RootAnswer, Agree;
      RootIsReachable(root);
      OngoingPly(root, root, 0);
      var ttMove := NO_MOVE;
      if options.useTT {
        var entry := table[Slot(zobrist(state.hash))];
        if entry.key == zobrist(state.hash) {
          ttMove := UnpackMove(entry.move16);
        }
      }
      FillBuffer(state.Snapshot(), 0, ttMove, depth, 0);
      if movePool[0] == [] {
        return true, lastMove, lastScore;
      }
      var best, localBest;
      completed, best, localBest := TryRootMoves(state, depth, alpha, beta, movePool[0]);
      if !completed {
        return false, lastMove, lastScore;
      }
      bestMove, bestScore := localBest, best;
      NarrowedWindow(best, Value(Kind(), root, depth, 0), alpha, beta, alpha, beta);
      var bound := if best <= alpha then Upper else if best >= beta then Lower else Exact;
      Store(state.Snapshot(), depth, best, bound, bestMove, 0);
    }

    /** One iteration: a window around the last score, doubled on the failing side, then the full window.
        With retries allowed it always settles, within two more searches than the retries. */
    method SearchDepth(state: Position, depth: nat, lastScore: int, guided: bool)
      returns (completed: bool, bestMove: Move, bestScore: int, searches: nat)
      requires Searching() && state.Snapshot() == root && target == depth > 0 && !stopped
      requires Shaped(root) && LegalMoves(root) != []
      modifies state, table, movePool, scratch
      modifies this`stopped, this`searchedNodes, this`ticks, this`killers, this`history, this`historyUpdates
      ensures Searching() && state.Snapshot() == old(state.Snapshot())
      ensures completed ==> !stopped && IsRootResult(Kind(), root, depth, bestMove, bestScore)
      ensures !completed && !stopped ==> options.aspirationMaxRetries < 0 && options.aspiration && guided
      ensures (NeverStops() ==> !stopped) && (StopsAtOnce() ==> !completed)
      ensures searches <= (if options.aspirationMaxRetries < 0 then 0 else options.aspirationMaxRetries) + 2
    {
      hide Reachable, Value, Searchable, NoCollision, EntrySound, LegalMoves, Apply, MoveValue;
      completed, bestMove, bestScore, searches := false, NO_MOVE, 0, 0;
      var alpha, beta := -SEARCH_INFINITY, SEARCH_INFINITY;
      var window := if options.aspirationInitialWindow > 1 then options.aspirationInitialWindow else 1;
      var calm := MATE_SCORE - MATE_SCORE_MARGIN;
      if options.aspiration && depth > 1 && guided && -calm < lastScore < calm {
        alpha := Max(-SEARCH_INFINITY, lastScore - window);
        beta := Min(SEARCH_INFINITY, lastScore + window);
      }
      var retries := 0;
      var limit := if options.aspirationMaxRetries < 0 then 0 else options.aspirationMaxRetries;
      while !stopped
        invariant Searching() && state.Snapshot() == root && searches == retries <= limit + 1 && window >= 1
        invariant -SEARCH_INFINITY <= alpha < beta <= SEARCH_INFINITY
        invariant retries == limit + 1 ==> alpha == -SEARCH_INFINITY && beta == SEARCH_INFINITY
        invariant options.aspirationMaxRetries < 0 ==> retries == 0
        invariant NeverStops() ==> !stopped
        invariant alpha > -SEARCH_INFINITY || beta < SEARCH_INFINITY ==> options.aspiration && guided
        decreases limit + 2 - retries
      {
        searches := searches + 1;
        var done;
        done, bestMove, bestScore := SearchRoot(state, depth, alpha, beta, bestMove, bestScore);
        if !done {
          break;
        }
        if alpha < bestScore < beta {
          completed := true;
          break;
        }
        retries := retries + 1;
        ticks := ticks + 1;
        if retries > options.aspirationMaxRetries || softReached(ticks) {
          alpha, beta := -SEARCH_INFINITY, SEARCH_INFINITY;
        } else {
          window := window * 2;
          if bestScore <= alpha {
            alpha := Max(-SEARCH_INFINITY, bestScore - window);
          }
          if bestScore >= beta {
            beta := Min(SEARCH_INFINITY, bestScore + window);
          }
        }
        if alpha == -SEARCH_INFINITY && beta == SEARCH_INFINITY && retries > options.aspirationMaxRetries + 1 {
          break;
        }
      }
    }

    /** A fresh start: options in place, nothing stopped, ordering memory reset or halved, table aged. */
    method Prepare(request: SearchOptions)
      requires Valid()
      modifies this, table
      ensures options == request && !stopped && searchedNodes == 0
      ensures forall i :: 0 <= i < table.Length ==>
                table[i] == if request.ttClearEachMove then EMPTY_ENTRY else old(table[i])
      ensures age == if request.ttAge then (old(age) + 1) % 256 else old(age)
      ensures killers == seq(KILLER_PLIES, _ => (NO_MOVE, NO_MOVE))
      ensures history.Keys == old(history).Keys && forall i :: i in history ==> history[i] == old(history)[i] / 2
    {
      options := request;
      stopped, searchedNodes := false, 0;
      if options.ttClearEachMove {
        ClearTable();
      }
      if options.ttAge {
        age := (age + 1) % 256;
      }
      killers := seq(KILLER_PLIES, _ => (NO_MOVE, NO_MOVE));
      history := map i | i in history :: history[i] / 2;
    }

    /** Iterative deepening from an empty table: each completed iteration replaces the result. */
    method Deepen(state: Position, start: SearchResult) returns (result: SearchResult)
      requires Searching() && state.Snapshot() == root && !stopped && target == 0
      requires Shaped(root) && LegalMoves(root) != [] && start.hasMove && start.depthReached == 0
      requires !start.timeoutHit && start.startedDepth == 0 && Answers(Kind(), root, options, start)
      modifies state, table, movePool, scratch
      modifies this`stopped, this`searchedNodes, this`ticks, this`killers, this`history, this`historyUpdates,
               this`target
      ensures result.hasMove && Answers(Kind(), root, options, result) && (NeverStops() ==> !result.timeoutHit)
      ensures LastCompleted(options, result)
      ensures StopsAtOnce() ==> result.depthReached == 0
      ensures HurriesAtOnce() ==> result.startedDepth == if options.iterativeDeepening then 1 else LastDepth(options)
      ensures Undisturbed(options) ==>
                IsRootResult(Kind(), root, LastDepth(options), result.bestMove, result.score)
    {
      hide Reachable, Value, Searchable, NoCollision, EntrySound, LegalMoves, Apply, MoveValue, StaticScore,
           IsRootResult;
      result := start;
      var last := LastDepth(options);
      var firstDepth := if options.iterativeDeepening then 1 else last;
      Retarget(firstDepth - 1);
      var depth := firstDepth;
      while depth <= last
        invariant firstDepth <= depth <= last + 1
        invariant Searching() && state.Snapshot() == root && target == depth - 1 && !stopped
        invariant result.hasMove && result.depthReached == (if depth > firstDepth then depth - 1 else 0)
        invariant result.startedDepth == result.depthReached
        invariant Answers(Kind(), root, options, result) && !result.timeoutHit
        invariant depth > firstDepth ==> options.iterativeDeepening && !StopsAtOnce()
        invariant depth > firstDepth + 1 ==> !HurriesAtOnce()
        decreases last + 1 - depth
      {
        if depth > firstDepth {
          ticks := ticks + 1;
          if softReached(ticks) {
            return;
          }
        }
        Retarget(depth);
        result := result.(startedDepth := depth);
        var completed, depthMove, depthScore, searches :=
          SearchDepth(state, depth, result.score, result.depthReached > 0);
        if !completed || stopped {
          result := result.(timeoutHit := stopped);
          return;
        }
        result := result.(bestMove := depthMove, score := depthScore, depthReached := depth);
        if depthScore >= MATE_SCORE - MATE_STOP_MARGIN || depthScore <= -(MATE_SCORE - MATE_STOP_MARGIN) {
          MateStops(Kind(), root, depth, last, depthMove, depthScore);
          return;
        }
        if !options.iterativeDeepening {
          return;
        }
        depth := depth + 1;
      }
    }

    /** Moving on to a deeper iteration keeps every table entry sound. */
    ghost method Retarget(depth: nat)
      requires Searching() && target <= depth
      modifies this`target
      ensures Searching() && target == depth
    {
      hide Reachable, Value, Searchable, NoCollision, EntrySound;
      forall i | 0 <= i < table.Length && target < depth
        ensures EntrySound(Kind(), table[i], zobrist, root, depth)
      {
        EntrySoundDeeper(Kind(), table[i], zobrist, root, target, depth);
      }
      target := depth;
    }

    /** The whole search. With an empty or cleared table the answer is the exact value of the deepest
        completed iteration and a move that attains it, or else the first legal move. If nothing stops it,
        it is the exact value at the requested depth. */
    method FindBestMove(rootState: State, request: SearchOptions) returns (result: SearchResult)
      requires Valid() && Shaped(rootState) && (rootState.terminal == Ongoing ==> Searchable(rootState))
      requires NoCollision(zobrist, rootState)
      requires request.ttClearEachMove || forall i :: 0 <= i < table.Length ==> table[i] == EMPTY_ENTRY
      modifies this, table, movePool, scratch
      ensures rootState.terminal != Ongoing ==> !result.hasMove && result.score == TerminalScore(rootState, 0)
      ensures WinsFor(rootState, rootState.sideToMove) ==> result.score == 1_000_000
      ensures WinsFor(rootState, rootState.sideToMove.Opposite()) ==> result.score == -1_000_000
      ensures rootState.terminal == Draw ==> result.score == 0
      ensures rootState.terminal == Ongoing && LegalMoves(rootState) == [] ==>
                !result.hasMove && result.score == -1_000_000
      ensures LegalMoves(rootState) != [] ==>
                && result.hasMove && Answers(EvaluatorOf(request), rootState, request, result)
                && LastCompleted(request, result)
      ensures LegalMoves(rootState) != [] && NeverStops() ==> !result.timeoutHit
      ensures LegalMoves(rootState) != [] && StopsAtOnce() ==>
                && result.bestMove == LegalMoves(rootState)[0]
                && result.score == StaticScore(EvaluatorOf(request), rootState)
      ensures LegalMoves(rootState) != [] && HurriesAtOnce() ==>
                result.startedDepth ==
                  if request.iterativeDeepening || request.maxDepth <= 1 then 1 else request.maxDepth
      ensures LegalMoves(rootState) != [] && Undisturbed(request) ==>
                && result.depthReached > 0
                && IsRootResult(if request.optimizedEval then Optimized else Reference, rootState,
                                if request.maxDepth > 1 then request.maxDepth else 1, result.bestMove, result.score)
                && Reports(rootState, if request.maxDepth > 1 then request.maxDepth else 1, result.bestMove,
                           result.score)
      ensures LegalMoves(rootState) != [] && result.depthReached > 0 ==>
                Reports(rootState, result.depthReached, result.bestMove, result.score)
    {
      hide Reachable, Value, Searchable, NoCollision, EntrySound, LegalMoves, Apply, MoveValue, StaticScore,
           TerminalScore, Satisfiable, IsRootResult, Reports;
      Prepare(request);
      result := SearchResult(NO_MOVE, 0, false, 0, 0, false);
      var fallback := GenerateLegalMoves(rootState, options.propagationMode, rules);
      TerminalHasNoMoves(rootState);
      if fallback == [] {
        FinishedRoot(rootState);
        result := result.(score := if rootState.terminal == Ongoing then -MATE_SCORE else TerminalScore(rootState, 0));
        return;
      }
      RootIsReachable(rootState);
      OngoingPly(rootState, rootState, 0);
      result := result.(bestMove := fallback[0], hasMove := true);
      var estimate := EvaluateSearch(rootState);
      result := result.(score := estimate);
      root, target := rootState, 0;
      EmptyEntrySound(Kind(), zobrist, root, target);
      var state := new Position(rootState);
      result := Deepen(state, result);
      if result.depthReached > 0 {
        RootReports(Kind(), rootState, result.depthReached, result.bestMove, result.score);
      }
      if Undisturbed(options) {
        RootReports(Kind(), rootState, LastDepth(options), result.bestMove, result.score);
      }
    }
  }
}
