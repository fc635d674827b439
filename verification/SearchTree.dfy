/** The positions a search can meet, the bounds on their values, and what a table entry may claim.
 */
module SearchTree {
  import opened Animals
  import opened States
  import opened Transition
  import opened MoveGeneration
  import opened Invariants
  import opened Evaluation
  import opened Minimax
  import opened Successors
  import opened Propagation

  const SEARCH_INFINITY := 1_100_000
  const MATE_SCORE_MARGIN := 512
  const MATE_STOP_MARGIN := 256

  ghost predicate Steps(s: State, m: Move, t: State)
  {
    Shaped(s) && m in LegalMoves(s) && Next(s, m) == t
  }

  /** Positions exactly ply legal moves away from the root. */
  ghost predicate Reachable(root: State, s: State, ply: nat)
    decreases ply
  {
    if ply == 0 then s == root else exists t, m :: Reachable(root, t, ply - 1) && Steps(t, m, s)
  }

  /** What every position of a search tree satisfies. */
  ghost predicate Node(root: State, s: State, ply: nat)
  {
    Searchable(s) && s.turn == root.turn + ply
  }

  lemma RootIsNode(s: State)
    requires Searchable(s)
    ensures Node(s, s, 0)
  {
  }

  lemma NodeIsShaped(root: State, s: State, ply: nat)
    requires Node(root, s, ply)
    ensures Shaped(s) && ply <= TURN_LIMIT
  {
    hide Lawful;
    LawfulIsShaped(s);
  }

  lemma ChildNode(root: State, s: State, ply: nat, m: Move, t: State)
    requires Node(root, s, ply) && Steps(s, m, t)
    ensures s.terminal == Ongoing && Apply(s, m) == Some(t) && Node(root, t, ply + 1)
  {
    hide LegalMoves, Apply, IsPseudoLegal, Satisfiable, Agree;
    LegalMember(s, m);
    PseudoLegalIsOngoing(s, m);
    ApplyKeepsLawful(s, m, t);
  }

  lemma PseudoLegalIsOngoing(s: State, m: Move)
    requires Shaped(s) && IsPseudoLegal(s, m)
    ensures s.terminal == Ongoing
  {
  }

  lemma {:induction false} ReachableNode(root: State, s: State, ply: nat)
    requires Searchable(root) && Reachable(root, s, ply)
    ensures Node(root, s, ply)
    decreases ply
  {
    hide Steps, Lawful;
    if ply > 0 {
      var t, m :| Reachable(root, t, ply - 1) && Steps(t, m, s);
      ReachableNode(root, t, ply - 1);
      ChildNode(root, t, ply - 1, m, s);
    }
  }

  lemma ReachableChild(root: State, s: State, ply: nat, m: Move)
    requires Searchable(root) && Reachable(root, s, ply) && Shaped(s) && m in LegalMoves(s)
    ensures Apply(s, m) == Some(Next(s, m)) && Reachable(root, Next(s, m), ply + 1)
  {
    hide LegalMoves, Apply, Node, Searchable;
    ReachableNode(root, s, ply);
    ChildNode(root, s, ply, m, Next(s, m));
    assert Steps(s, m, Next(s, m));
  }

  /** No two positions of the tree share a key: the assumption that replaces 64-bit luck. */
  ghost predicate NoCollision(key: Hash -> int, root: State)
  {
    forall s, t, j: nat, k: nat ::
      Reachable(root, s, j) && Reachable(root, t, k) && key(s.hash) == key(t.hash) ==> s == t
  }

  /** The key never confuses the hashed fields of two positions of the tree. */
  ghost predicate TellsHashesApart(key: Hash -> int, root: State)
  {
    forall s, t, j: nat, k: nat ::
      Reachable(root, s, j) && Reachable(root, t, k) && key(s.hash) == key(t.hash) ==> s.hash == t.hash
  }

  lemma SamePlacementSameBoard(s: State, t: State, x: int)
    requires Agree(s) && Agree(t) && s.pos == t.pos && 0 <= x < BOARD_SIZE
    ensures s.board[x] == t.board[x]
  {
    if s.board[x] >= 0 {
      assert t.board[t.pos[s.board[x]]] == s.board[x];
    }
    if t.board[x] >= 0 {
      assert s.board[s.pos[t.board[x]]] == t.board[x];
    }
  }

  /** The hashed fields determine a position of the tree: they leave out only the board, which the
      placements give, and turns past the limit. */
  lemma HashTellsPositions(root: State, s: State, j: nat, t: State, k: nat)
    requires Searchable(root) && Reachable(root, s, j) && Reachable(root, t, k) && s.hash == t.hash
    ensures s == t
  {
    hide Reachable, Satisfiable, Agree;
    ReachableNode(root, s, j);
    ReachableNode(root, t, k);
    LawfulIsShaped(s);
    LawfulIsShaped(t);
    forall x | 0 <= x < BOARD_SIZE
      ensures s.board[x] == t.board[x]
    {
      SamePlacementSameBoard(s, t, x);
    }
    assert s.board == t.board;
  }

  /** So the no-collision assumption asks nothing of the rules, only of the key. */
  lemma NoCollisionIsAboutKeys(key: Hash -> int, root: State)
    requires Searchable(root)
    ensures NoCollision(key, root) <==> TellsHashesApart(key, root)
  {
    hide Reachable, Searchable;
    if TellsHashesApart(key, root) {
      forall s, t, j: nat, k: nat | Reachable(root, s, j) && Reachable(root, t, k) && key(s.hash) == key(t.hash)
        ensures s == t
      {
        HashTellsPositions(root, s, j, t, k);
      }
    }
  }

  /** One position is met at one distance only: the turn counter tells it. */
  lemma SamePly(root: State, s: State, j: nat, k: nat)
    requires Searchable(root) && Reachable(root, s, j) && Reachable(root, s, k)
    ensures j == k
  {
    hide Searchable, Reachable;
    ReachableNode(root, s, j);
    ReachableNode(root, s, k);
  }

  // ---------------------------------------------------------------- bounds

  lemma {:induction false} ValueBounds(ev: Evaluator, root: State, s: State, depth: nat, ply: nat)
    requires Node(root, s, ply)
    ensures -MATE_SCORE + ply <= Value(ev, s, depth, ply) <= MATE_SCORE - ply
    decreases depth
  {
    hide StaticScore, LegalMoves, Lawful;
    LawfulIsShaped(s);
    if s.terminal != Ongoing {
    } else if depth == 0 {
      EvaluationBounds(ev, s);
    } else if LegalMoves(s) != [] {
      ValueIsBest(ev, s, depth, ply);
      var m :| m in LegalMoves(s) && MoveValue(ev, s, m, depth, ply) == Value(ev, s, depth, ply);
      MoveValueBounds(ev, root, s, m, depth, ply);
    }
  }

  lemma {:induction false} MoveValueBounds(ev: Evaluator, root: State, s: State, m: Move, depth: nat, ply: nat)
    requires Node(root, s, ply) && Shaped(s) && m in LegalMoves(s) && depth > 0
    ensures -MATE_SCORE + ply < MoveValue(ev, s, m, depth, ply) <= MATE_SCORE - ply
    decreases depth, 0
  {
    hide LegalMoves, Node, Value, MoveValue, Next, Apply, Shaped;
    assert Steps(s, m, Next(s, m));
    ChildNode(root, s, ply, m, Next(s, m));
    ValueBounds(ev, root, Next(s, m), depth - 1, ply + 1);
    MoveValueIsNegated(ev, s, m, depth, ply);
  }

  // ---------------------------------------------------------------- bounds as statements

  datatype BoundType = Exact | Lower | Upper

  predicate Holds(bound: BoundType, score: int, v: int) {
    match bound
    case Exact => v == score
    case Lower => v >= score
    case Upper => v <= score
  }

  /** A fail-soft answer: outside the window a bound, inside it the value. */
  predicate FailSoft(r: int, v: int, alpha: int, beta: int) {
    && (r <= alpha ==> v <= r)
    && (r >= beta ==> v >= r)
    && (alpha < r < beta ==> r == v)
  }

  /** Mate scores are stored relative to the node and read back relative to the root. */
  function ScoreToTT(score: int, ply: int): int {
    if score > MATE_SCORE - MATE_SCORE_MARGIN then score + ply
    else if score < -MATE_SCORE + MATE_SCORE_MARGIN then score - ply
    else score
  }

  function ScoreFromTT(score: int, ply: int): int {
    if score > MATE_SCORE - MATE_SCORE_MARGIN then score - ply
    else if score < -MATE_SCORE + MATE_SCORE_MARGIN then score + ply
    else score
  }

  lemma ScoreRoundTrip(score: int, ply: nat)
    ensures ScoreFromTT(ScoreToTT(score, ply), ply) == score
  {
  }

  /** A mate so many plies from the node is stored without regard to the node's own distance and read back, at
      any other distance, as a mate as far from there; other scores are stored as they are. */
  lemma MatesMoveWithTheNode(plies: nat, ply: nat, ply': nat, calm: int)
    requires ply + plies < 512 && -999_488 <= calm <= 999_488
    ensures ScoreFromTT(ScoreToTT(1_000_000 - ply - plies, ply), ply') == 1_000_000 - ply' - plies
    ensures ScoreFromTT(ScoreToTT(-1_000_000 + ply + plies, ply), ply') == -1_000_000 + ply' + plies
    ensures ScoreToTT(calm, ply) == calm == ScoreFromTT(calm, ply')
  {
  }

  // ---------------------------------------------------------------- packed moves

  const INVALID_PACKED_MOVE := 65535

  function PackMove(m: Move): int {
    if !m.Valid() then INVALID_PACKED_MOVE else m.to + m.from * 16 + m.piece * 512
  }

  function UnpackMove(packed: int): Move {
    if packed == INVALID_PACKED_MOVE then NO_MOVE
    else Move(packed / 512 % 8, packed / 16 % 32, packed % 16)
  }

  lemma PackRoundTrip(m: Move)
    ensures UnpackMove(PackMove(m)) == if m.Valid() then m else NO_MOVE
    ensures 0 <= PackMove(m) <= INVALID_PACKED_MOVE
  {
    if m.Valid() {
      var packed := PackMove(m);
      assert packed / 16 == m.from + m.piece * 32;
    }
  }

  // ---------------------------------------------------------------- table entries

  datatype TTEntry = TTEntry(key: int, score: int, depth: int, move16: int, flag: BoundType, age: int)

  const EMPTY_ENTRY := TTEntry(0, 0, -1, INVALID_PACKED_MOVE, Exact, 0)

  /** Depths are stored in sixteen signed bits. */
  function ToInt16(depth: int): int {
    (depth + 0x8000) % 0x1_0000 - 0x8000
  }

  /** What an entry may say about a position at a distance below the current target depth: it is too
      shallow to be used, or has exactly the depth asked for and its bound is a true statement. */
  ghost predicate Claim(ev: Evaluator, e: TTEntry, s: State, ply: nat, target: nat)
  {
    if ply >= target then e.depth <= 0
    else
      || e.depth < target - ply
      || (&& e.depth == target - ply
          && -MATE_SCORE <= ScoreFromTT(e.score, ply) <= MATE_SCORE
          && Holds(e.flag, ScoreFromTT(e.score, ply), Value(ev, s, target - ply, ply)))
  }

  ghost predicate EntrySound(ev: Evaluator, e: TTEntry, key: Hash -> int, root: State, target: nat)
  {
    forall s, ply: nat :: Reachable(root, s, ply) && key(s.hash) == e.key ==> Claim(ev, e, s, ply, target)
  }

  lemma EmptyEntrySound(ev: Evaluator, key: Hash -> int, root: State, target: nat)
    ensures EntrySound(ev, EMPTY_ENTRY, key, root, target)
  {
    hide Reachable, Value;
  }

  /** Entries of a shallower iteration are all too shallow for a deeper one. */
  lemma EntrySoundDeeper(ev: Evaluator, e: TTEntry, key: Hash -> int, root: State, target: nat, target': nat)
    requires EntrySound(ev, e, key, root, target) && target < target'
    ensures EntrySound(ev, e, key, root, target')
  {
    hide Reachable, Value;
    forall s, ply: nat | Reachable(root, s, ply) && key(s.hash) == e.key
      ensures Claim(ev, e, s, ply, target')
    {
      assert Claim(ev, e, s, ply, target);
    }
  }

  /** Storing a true bound for one position makes a sound entry: its key belongs to no other position. */
  lemma StoredEntrySound(ev: Evaluator, e: TTEntry, key: Hash -> int, root: State, target: nat, s: State, ply: nat,
                         score: int)
    requires Searchable(root) && NoCollision(key, root) && Reachable(root, s, ply) && ply < target
    requires e.key == key(s.hash) && e.depth == ToInt16(target - ply) && e.score == ScoreToTT(score, ply)
    requires -MATE_SCORE <= score <= MATE_SCORE && Holds(e.flag, score, Value(ev, s, target - ply, ply))
    ensures EntrySound(ev, e, key, root, target)
  {
    hide Reachable, Value, Searchable;
    ScoreRoundTrip(score, ply);
    forall t, k: nat | Reachable(root, t, k) && key(t.hash) == e.key
      ensures Claim(ev, e, t, k, target)
    {
      assert t == s;
      SamePly(root, s, ply, k);
    }
  }

  // ---------------------------------------------------------------- window reasoning

  function BoundFor(best: int, alpha: int, beta: int): BoundType {
    if best <= alpha then Upper else if best >= beta then Lower else Exact
  }

  /** A table bound may narrow the window; the answer stays fail-soft for the window asked for, and the
      flag chosen from the old alpha and the new beta is a true statement. */
  lemma NarrowedWindow(best: int, v: int, alpha: int, beta: int, alpha': int, beta': int)
    requires alpha <= alpha' < beta' <= beta && FailSoft(best, v, alpha', beta')
    requires (alpha' > alpha ==> v >= alpha') && (beta' < beta ==> v <= beta')
    ensures FailSoft(best, v, alpha, beta)
    ensures Holds(BoundFor(best, alpha, beta'), best, v)
  {
  }

  /** The maximum so far over the moves tried, as far as fail-soft answers reveal it. */
  ghost predicate BestSoFar(ev: Evaluator, s: State, moves: seq<Move>, n: int, depth: nat, ply: int, alpha: int,
                            best: int)
    requires 0 <= n <= |moves| && depth > 0
  {
    && (forall j :: 0 <= j < n ==> MoveValue(ev, s, moves[j], depth, ply) <= best)
    && (best > alpha ==> exists j :: 0 <= j < n && MoveValue(ev, s, moves[j], depth, ply) == best)
  }

  lemma BestGrows(ev: Evaluator, s: State, moves: seq<Move>, n: int, depth: nat, ply: int, alpha: int, best: int,
                  score: int, beta: int)
    requires 0 <= n < |moves| && depth > 0 && BestSoFar(ev, s, moves, n, depth, ply, alpha, best)
    requires score < beta
    requires FailSoft(score, MoveValue(ev, s, moves[n], depth, ply), if best > alpha then best else alpha, beta)
    ensures BestSoFar(ev, s, moves, n + 1, depth, ply, alpha, if score > best then score else best)
  {
    hide MoveValue;
  }

  /** Once every kept move has been tried, the best score answers for the position. */
  lemma AllTried(ev: Evaluator, s: State, moves: seq<Move>, depth: nat, ply: int, alpha: int, best: int, beta: int,
                 v: int)
    requires depth > 0 && BestSoFar(ev, s, moves, |moves|, depth, ply, alpha, best)
    requires IsBest(ev, s, moves, depth, ply, v)
    requires best < beta
    ensures FailSoft(best, v, alpha, beta)
    ensures best > alpha ==> exists j :: 0 <= j < |moves| && MoveValue(ev, s, moves[j], depth, ply) == best == v
  {
    hide MoveValue;
    var m :| m in moves && MoveValue(ev, s, m, depth, ply) == v;
    var k :| 0 <= k < |moves| && moves[k] == m;
    if best > alpha {
      var j :| 0 <= j < |moves| && MoveValue(ev, s, moves[j], depth, ply) == best;
      assert moves[j] in moves;
    }
  }

  /** A score at or above beta settles the position from below. */
  lemma CutSettles(ev: Evaluator, s: State, moves: seq<Move>, n: int, depth: nat, ply: int, alpha: int, beta: int,
                   score: int, v: int)
    requires 0 <= n < |moves| && depth > 0 && IsBest(ev, s, moves, depth, ply, v)
    requires alpha < beta <= score && FailSoft(score, MoveValue(ev, s, moves[n], depth, ply), alpha, beta)
    ensures v >= score
  {
    hide MoveValue;
    assert moves[n] in moves;
  }

  /** A reordering has the same members, so the same best. */
  lemma ReorderedBest(ev: Evaluator, s: State, moves: seq<Move>, ordered: seq<Move>, depth: nat, ply: int, v: int)
    requires depth > 0 && multiset(moves) == multiset(ordered) && IsBest(ev, s, moves, depth, ply, v)
    ensures IsBest(ev, s, ordered, depth, ply, v) && |ordered| == |moves|
    ensures forall m :: m in ordered <==> m in moves
  {
    hide MoveValue;
    assert |multiset(moves)| == |moves| && |multiset(ordered)| == |ordered|;
    assert forall m :: m in ordered <==> m in multiset(ordered);
    assert forall m :: m in moves <==> m in multiset(moves);
  }

  lemma OngoingPly(root: State, s: State, ply: nat)
    requires Searchable(root) && Reachable(root, s, ply) && s.terminal == Ongoing
    ensures ply < TURN_LIMIT && Shaped(s) && Agree(s)
  {
    hide Reachable, Satisfiable;
    ReachableNode(root, s, ply);
  }

  lemma NothingTried(ev: Evaluator, s: State, moves: seq<Move>, depth: nat, ply: int, alpha: int, best: int)
    requires depth > 0 && best <= alpha
    ensures BestSoFar(ev, s, moves, 0, depth, ply, alpha, best)
  {
  }

  lemma MoveValueIsNegated(ev: Evaluator, s: State, m: Move, depth: nat, ply: int)
    requires depth > 0
    ensures MoveValue(ev, s, m, depth, ply) == -Value(ev, Next(s, m), depth - 1, ply + 1)
  {
    hide Value, Next;
  }

  lemma ExactIsFailSoft(v: int, alpha: int, beta: int)
    ensures FailSoft(v, v, alpha, beta)
  {
  }

  lemma CutIsFailSoft(score: int, v: int, alpha: int, beta: int)
    requires alpha < beta <= score <= v
    ensures FailSoft(score, v, alpha, beta)
  {
  }

  lemma InsideIsExact(score: int, v: int, alpha: int, beta: int)
    requires FailSoft(score, v, alpha, beta)
    ensures alpha < score < beta ==> v == score
  {
  }

  lemma PseudoLegalIsValid(s: State, m: Move)
    requires Shaped(s) && IsPseudoLegal(s, m)
    ensures m.Valid()
  {
  }

  lemma LegalIsValid(s: State, m: Move)
    requires Shaped(s) && m in LegalMoves(s)
    ensures m.Valid()
  {
    hide LegalMoves, IsPseudoLegal;
    LegalMember(s, m);
    PseudoLegalIsValid(s, m);
  }

  lemma NodeIsBounded(ev: Evaluator, root: State, s: State, depth: nat, ply: nat)
    requires Searchable(root) && Reachable(root, s, ply)
    ensures Shaped(s) && ply <= TURN_LIMIT && -MATE_SCORE <= Value(ev, s, depth, ply) <= MATE_SCORE
  {
    hide Reachable, Value, Lawful;
    ReachableNode(root, s, ply);
    LawfulIsShaped(s);
    ValueBounds(ev, root, s, depth, ply);
  }

  lemma TerminalValue(ev: Evaluator, s: State, depth: nat, ply: int)
    requires Shaped(s) && s.terminal != Ongoing
    ensures Value(ev, s, depth, ply) == TerminalScore(s, ply)
  {
    hide LegalMoves, StaticScore, Shaped;
  }

  lemma LeafValue(ev: Evaluator, s: State, ply: int)
    requires Shaped(s) && s.terminal == Ongoing
    ensures Value(ev, s, 0, ply) == StaticScore(ev, s)
  {
    hide LegalMoves, StaticScore, Shaped;
  }

  /** What generation and reduction leave at a node: no move exactly when the side is blocked, which
      costs the game, and otherwise moves whose best is the value. */
  lemma KeptMoves(ev: Evaluator, s: State, kept: seq<Move>, depth: nat, ply: int)
    requires Agree(s) && s.terminal == Ongoing && depth > 0 && Covers(s, LegalMoves(s), kept)
    ensures kept == [] <==> LegalMoves(s) == []
    ensures kept == [] ==> Value(ev, s, depth, ply) == -MATE_SCORE + ply
    ensures kept != [] ==> IsBest(ev, s, kept, depth, ply, Value(ev, s, depth, ply))
    ensures forall m :: m in kept ==> m in LegalMoves(s)
  {
    hide LegalMoves, LeadsTo, MoveValue, IsBest, StaticScore, Covers;
    KeptAreLegal(s, LegalMoves(s), kept);
    if kept != [] {
      assert kept[0] in kept;
    }
    if LegalMoves(s) != [] {
      ReductionKeepsValue(ev, s, kept, depth, ply);
    }
  }
}
