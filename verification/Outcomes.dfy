/** Whole games: acceptance of every pseudo-legal move, the exact conditions for Catch and Try, and the
    length of a run.
 */
module Outcomes {
  import opened Animals
  import opened Propagation
  import opened States
  import opened Transition
  import opened MoveGeneration
  import opened Invariants

  /** A move from play settles: it is accepted, and custody survives exactly when the opponent still
      owned a Lion candidate after the first propagation. */
  lemma MoveSettles(s: State, m: Move) returns (u: State, v: State)
    requires Playable(s) && IsPseudoLegal(s, m)
    ensures FirstPropagation(s, m) == Some(u) && Shaped(u) && Settled(s, m) == Some(v)
    ensures Coherent(v) && Landed(s, m, v)
    ensures HasLionCandidate(u, s.sideToMove.Opposite()) <==> Custody(v)
    ensures !Custody(v) ==> HasHandLionCandidate(v, s.sideToMove) && !HasLionCandidate(v, s.sideToMove.Opposite())
  {
    hide Moved, Propagated, Resolved, HasLionCandidate, HasHandLionCandidate, Custody, CanReach, Landed;
    FirstPropagationLands(s, m);
    u := FirstPropagation(s, m).value;
    if m.from < BOARD_SIZE {
      v := ResolutionOutcome(s, m, u);
    } else {
      v := u;
      DropKeepsCustody(s, m, u);
    }
  }

  lemma DropKeepsCustody(s: State, m: Move, u: State)
    requires Playable(s) && IsPseudoLegal(s, m) && Coherent(u) && Landed(s, m, u) && IsHandPosition(m.from)
    ensures Custody(u) && HasLionCandidate(u, s.sideToMove.Opposite())
  {
    CustodyButForCaptured(s, m, u);
    var p := EachOriginHasLion(u.origin, u.mask, s.sideToMove.Opposite());
  }

  /** Every pseudo-legal move from play is accepted, and nothing else is. */
  lemma AcceptsExactlyPseudoLegal(s: State, m: Move)
    requires Playable(s)
    ensures Apply(s, m).Some? <==> IsPseudoLegal(s, m)
  {
    if IsPseudoLegal(s, m) {
      var u, v := MoveSettles(s, m);
    }
    if Moved(s, m).Some? {
      OnlyPseudoLegalMoves(s, m);
    }
  }

  /** The legal filter keeps the whole pseudo-legal list, in order. */
  lemma LegalIsPseudoLegal(s: State)
    requires Playable(s)
    ensures LegalMoves(s) == PseudoLegalMoves(s)
  {
    forall i | 0 <= i < |PseudoLegalMoves(s)|
      ensures Apply(s, PseudoLegalMoves(s)[i]).Some?
    {
      hide Apply, IsPseudoLegal, PseudoLegalMoves;
      PseudoLegalMember(s, PseudoLegalMoves(s)[i]);
      AcceptsExactlyPseudoLegal(s, PseudoLegalMoves(s)[i]);
    }
    AllAccepted(s, PseudoLegalMoves(s));
  }

  lemma {:induction false} AllAccepted(s: State, moves: seq<Move>)
    requires Shaped(s) && forall i :: 0 <= i < |moves| ==> Apply(s, moves[i]).Some?
    ensures Accepted(s, moves) == moves
  {
    hide Apply, Shaped;
    if moves != [] {
      var n := |moves| - 1;
      AllAccepted(s, moves[..n]);
      assert moves == moves[..n] + [moves[n]];
    }
  }

  /** Try and Catch conditions exclude each other once a move from play has settled. */
  lemma TryOrCatch(s: State, mover: Side)
    requires Shaped(s)
    requires Custody(s) || (HasHandLionCandidate(s, mover) && !HasLionCandidate(s, mover.Opposite()))
    ensures Custody(s) <==> !HasHandLionCandidate(s, mover)
    ensures !(HasSurvivingTry(s, mover.Opposite()) && HasHandLionCandidate(s, mover))
  {
  }

  /** The winning conditions look only at placement, ownership and masks. */
  lemma SamePlacementSameVerdict(s: State, t: State)
    requires Shaped(s) && Shaped(t)
    requires s.pos == t.pos && s.owner == t.owner && s.mask == t.mask && s.origin == t.origin
    ensures forall side :: HasSurvivingTry(s, side) == HasSurvivingTry(t, side)
    ensures forall side :: HasHandLionCandidate(s, side) == HasHandLionCandidate(t, side)
    ensures forall side :: HasLionCandidate(s, side) == HasLionCandidate(t, side)
    ensures Custody(s) == Custody(t)
  {
    assert forall side, p :: 0 <= p < PIECE_COUNT ==> IsTryCandidate(s, side, p) == IsTryCandidate(t, side, p);
    assert forall side, p :: 0 <= p < PIECE_COUNT ==> IsHandLion(s, side, p) == IsHandLion(t, side, p);
  }

  lemma FinishedKeeps(v: State, mover: Side)
    requires Coherent(v) && v.turn < TURN_LIMIT
    ensures var t := Finished(v, mover);
            && Sound(t) && t.turn == v.turn + 1 && t.sideToMove == mover.Opposite()
            && t.pos == v.pos && t.owner == v.owner && t.mask == v.mask && t.origin == v.origin && t.board == v.board
  {
    hide Closed, HasSurvivingTry, HasHandLionCandidate;
  }

  /** The end of a transition: the position passes to the opponent and is judged. */
  lemma JudgedOutcome(v: State, mover: Side)
    requires Coherent(v) && v.terminal == Ongoing && v.winner == NO_WINNER && v.turn < TURN_LIMIT
    requires Custody(v) || (HasHandLionCandidate(v, mover) && !HasLionCandidate(v, mover.Opposite()))
    ensures var t := Finished(v, mover);
            && Sound(t)
            && (t.terminal == Ongoing ==> Playable(t))
            && (t.terminal == Catch <==> !Custody(t))
            && (t.terminal == Catch <==> HasHandLionCandidate(t, mover))
            && (t.terminal == Try <==> HasSurvivingTry(t, mover.Opposite()))
            && (t.terminal == Draw <==> t.turn == TURN_LIMIT && t.terminal != Catch && t.terminal != Try)
            && t.terminal != Illegal
            && t.winner == (if t.terminal == Catch then SideIndex(mover)
                            else if t.terminal == Try then SideIndex(mover.Opposite()) else NO_WINNER)
  {
    TryOrCatch(v, mover);
    FinishedKeeps(v, mover);
    hide Agree, Closed, FormsSettled, IsTryCandidate, IsHandLion, HasLionCandidate;
    var passed := Passed(v, mover);
    var t := Finished(v, mover);
    SamePlacementSameVerdict(v, passed);
    SamePlacementSameVerdict(v, t);
    hide HasSurvivingTry, HasHandLionCandidate, Custody;
  }

  /** One step of play: it keeps the invariant or ends the game, and each ending has its exact cause.
      In particular the mover wins by Catch exactly when the opponent is left without a Lion candidate
      by the first propagation, and only the opponent can win by Try. */
  lemma StepOfPlay(s: State, m: Move) returns (u: State, t: State)
    requires Playable(s) && IsPseudoLegal(s, m)
    ensures Apply(s, m) == Some(t) && FirstPropagation(s, m) == Some(u) && Shaped(u)
    ensures Sound(t) && Follows(s, m, t) && t.turn == s.turn + 1 && t.sideToMove == s.sideToMove.Opposite()
    ensures t.terminal == Ongoing ==> Playable(t)
    ensures t.terminal == Catch <==> !HasLionCandidate(u, s.sideToMove.Opposite())
    ensures t.terminal == Catch <==> !Custody(t)
    ensures t.terminal == Try <==> HasSurvivingTry(t, t.sideToMove)
    ensures t.terminal == Draw <==> t.turn == TURN_LIMIT && t.terminal != Catch && t.terminal != Try
    ensures t.terminal != Illegal
    ensures t.winner == (if t.terminal == Catch then SideIndex(s.sideToMove)
                         else if t.terminal == Try then SideIndex(s.sideToMove.Opposite()) else NO_WINNER)
  {
    hide Settled, FirstPropagation, IsPseudoLegal, HasSurvivingTry, HasHandLionCandidate, HasLionCandidate, Finished;
    var v;
    u, v := MoveSettles(s, m);
    FinishedKeeps(v, s.sideToMove);
    JudgedOutcome(v, s.sideToMove);
    hide Custody, Coherent;
    t := Apply(s, m).value;
  }

  lemma TryTracesBack(s0: State, m0: Move, s1: State, m1: Move, s2: State, p: int)
    requires Follows(s0, m0, s1) && Follows(s1, m1, s2) && Custody(s0)
    requires s0.owner[m0.piece] == s0.sideToMove && s1.owner[m1.piece] == s0.sideToMove.Opposite()
    requires s1.sideToMove == s0.sideToMove.Opposite()
    requires 0 <= p < PIECE_COUNT && IsTryCandidate(s2, s0.sideToMove, p)
    ensures (p == m0.piece && s2.pos[p] == m0.to) || IsTryCandidate(s0, s0.sideToMove, p)
  {
    hide IsBackRank;
  }

  /** A pending Try is the work of one piece: when a reply lets it stand, the piece that won is the one
      the winner moved to that square on the move before. */
  lemma TryIsThePreviousMove(s0: State, m0: Move, s1: State, m1: Move, s2: State, p: int)
    requires Playable(s0) && Apply(s0, m0) == Some(s1) && s1.terminal == Ongoing
    requires Apply(s1, m1) == Some(s2) && s2.terminal == Try
    requires 0 <= p < PIECE_COUNT && IsTryCandidate(s2, s2.sideToMove, p)
    ensures p == m0.piece && s2.pos[p] == m0.to
    ensures s2.winner == SideIndex(s0.sideToMove)
  {
    hide Apply, Coherent, IsTryCandidate, Custody;
    AcceptsExactlyPseudoLegal(s0, m0);
    var u1, t1 := StepOfPlay(s0, m0);
    AcceptsExactlyPseudoLegal(s1, m1);
    var u2, t2 := StepOfPlay(s1, m1);
    hide Follows, CanReach;
    TryTracesBack(s0, m0, s1, m1, s2, p);
  }

  // ---------------------------------------------------------------- runs

  /** A sequence of states each reached from the one before by an accepted move. */
  ghost predicate IsRun(states: seq<State>, moves: seq<Move>)
  {
    && |states| == |moves| + 1
    && (forall i :: 0 <= i < |moves| ==> Apply(states[i], moves[i]) == Some(states[i + 1]))
  }

  lemma {:induction false} RunIsPlayableBefore(states: seq<State>, moves: seq<Move>, k: nat)
    requires IsRun(states, moves) && Playable(states[0]) && k < |moves|
    ensures Playable(states[k]) && states[k].turn == states[0].turn + k
  {
    hide Apply, Playable;
    if k > 0 {
      RunIsPlayableBefore(states, moves, k - 1);
      var s, m := states[k - 1], moves[k - 1];
      assert Apply(s, m) == Some(states[k]) && Apply(states[k], moves[k]) == Some(states[k + 1]);
      OngoingBeforeMove(states[k], moves[k]);
      StepFromPlay(s, m, states[k]);
    }
  }

  lemma StepFromPlay(s: State, m: Move, t: State)
    requires Playable(s) && Apply(s, m) == Some(t)
    ensures Sound(t) && t.turn == s.turn + 1 <= TURN_LIMIT
    ensures t.terminal == Ongoing ==> Playable(t)
    ensures t.terminal != Catch ==> Custody(t)
  {
    hide Apply, IsPseudoLegal;
    AcceptsExactlyPseudoLegal(s, m);
    var u, t' := StepOfPlay(s, m);
  }

  lemma LastStep(states: seq<State>, moves: seq<Move>)
    requires IsRun(states, moves) && moves != [] && Playable(states[|moves| - 1])
    ensures var last := states[|moves|];
            && Sound(last) && last.turn == states[|moves| - 1].turn + 1 <= TURN_LIMIT
            && (last.terminal == Ongoing ==> Playable(last))
            && (last.terminal != Catch ==> Custody(last))
  {
    hide Apply, Playable, Sound, Custody;
    var n := |moves| - 1;
    StepFromPlay(states[n], moves[n], states[n + 1]);
  }

  /** Along any run from play every state but the last is still play, the last is sound, and the turn
      counter bounds the length: no run takes more than 256 - turn moves. */
  lemma RunsStayPlayable(states: seq<State>, moves: seq<Move>)
    requires IsRun(states, moves) && Playable(states[0])
    ensures forall i :: 0 <= i < |moves| ==> Playable(states[i])
    ensures var last := states[|moves|];
            && Sound(last) && last.turn == states[0].turn + |moves| <= TURN_LIMIT
            && (last.terminal == Ongoing ==> Playable(last))
            && (last.terminal != Catch ==> Custody(last))
  {
    hide Apply;
    forall i | 0 <= i < |moves|
      ensures Playable(states[i])
    {
      RunIsPlayableBefore(states, moves, i);
    }
    if moves == [] {
      PlayableTurn(states[0]);
    } else {
      var n := |moves| - 1;
      RunIsPlayableBefore(states, moves, n);
      LastStep(states, moves);
    }
  }

  /** In every state of play each side still owns a Lion candidate of its own origin, on the board. */
  lemma EachSideOwnsALion(s: State, side: Side) returns (p: int)
    requires Playable(s)
    ensures Shaped(s) && 0 <= p < PIECE_COUNT && s.mask[p].lion
    ensures s.origin[p] == s.owner[p] == side && IsBoardSquare(s.pos[p])
  {
    hide Closed, Agree, HasSurvivingTry;
    PlayableIsShaped(s);
    p := EachOriginHasLion(s.origin, s.mask, side);
  }

  lemma PlayableIsShaped(s: State)
    requires Playable(s)
    ensures Shaped(s) && Closed(s.origin, s.mask) && Custody(s)
  {
    hide Closed, HasSurvivingTry;
  }

  lemma OngoingBeforeMove(s: State, m: Move)
    requires Apply(s, m).Some?
    ensures s.terminal == Ongoing
  {
  }

  lemma PlayableTurn(s: State)
    requires Playable(s)
    ensures Sound(s) && Custody(s) && s.turn < TURN_LIMIT && s.terminal == Ongoing
  {
  }

  // ---------------------------------------------------------------- the initial state

  const INITIAL_POSITIONS := [9, 10, 11, 7, 0, 1, 2, 4]
  const INITIAL_OWNERS := [South, South, South, South, North, North, North, North]

  method InitialState() returns (s: State)
    ensures s == Initial()
  {
    var board := seq(BOARD_SIZE, _ => EMPTY_SQUARE);
    for piece := 0 to PIECE_COUNT
      invariant |board| == BOARD_SIZE
      invariant forall square :: 0 <= square < BOARD_SIZE ==>
                  board[square] == if Initial().board[square] < piece then Initial().board[square] else EMPTY_SQUARE
    {
      board := board[INITIAL_POSITIONS[piece] := piece];
    }
    assert board == Initial().board;
    s := Rehashed(State(board, INITIAL_POSITIONS, seq(PIECE_COUNT, _ => ALL_ANIMALS), INITIAL_OWNERS, INITIAL_OWNERS,
                        South, 0, Ongoing, NO_WINNER, Initial().hash));
  }

  function Initial(): State {
    Rehashed(State([4, 5, 6, -1, 7, -1, -1, 3, -1, 0, 1, 2], INITIAL_POSITIONS,
                   seq(PIECE_COUNT, _ => ALL_ANIMALS), INITIAL_OWNERS, INITIAL_OWNERS, South, 0, Ongoing, NO_WINNER,
                   Hash([], [], [], [], South, 0, Ongoing, NO_WINNER)))
  }

  /** Cyclic shifts of the four lineages give every piece every lineage. */
  ghost function CyclicAssignment(shift: int): Assignment {
    seq(PIECE_COUNT, p => [ChickLine, GiraffeLine, ElephantLine, LionLine][(p + shift) % 4])
  }

  lemma CyclicAssignmentFits(shift: int)
    ensures Fits(INITIAL_OWNERS, seq(PIECE_COUNT, _ => ALL_ANIMALS), CyclicAssignment(shift))
  {
  }

  lemma InitialIsClosed()
    ensures Closed(INITIAL_OWNERS, seq(PIECE_COUNT, _ => ALL_ANIMALS))
  {
    var mask := seq(PIECE_COUNT, _ => ALL_ANIMALS);
    CyclicAssignmentFits(0);
    hide Fits;
    forall p, x: Lineage | 0 <= p < PIECE_COUNT
      ensures Supports(INITIAL_OWNERS, mask, p, x)
    {
      var shift := (match x case ChickLine => 4 case GiraffeLine => 5 case ElephantLine => 6 case LionLine => 7) - p;
      CyclicAssignmentFits(shift);
      assert CyclicAssignment(shift)[p] == x;
    }
    assert forall p :: 0 <= p < PIECE_COUNT ==> Closure(INITIAL_OWNERS, mask)[p] == mask[p];
  }

  lemma InitialLengths()
    ensures var s := Initial(); |s.board| == BOARD_SIZE && |s.pos| == |s.mask| == |s.owner| == |s.origin| == PIECE_COUNT
  {
  }

  lemma InitialPlacement(p: int)
    requires 0 <= p < PIECE_COUNT
    ensures 0 <= Initial().pos[p] < BOARD_SIZE && Initial().board[Initial().pos[p]] == p
    ensures !IsTryCandidate(Initial(), South, p)
  {
  }

  lemma InitialSquare(square: int)
    requires 0 <= square < BOARD_SIZE
    ensures -1 <= Initial().board[square] < PIECE_COUNT
    ensures Initial().board[square] >= 0 ==> Initial().pos[Initial().board[square]] == square
  {
  }

  lemma InitialAgrees()
    ensures Agree(Initial()) && !HasSurvivingTry(Initial(), South)
  {
    hide Initial, IsTryCandidate;
    InitialLengths();
    forall p | 0 <= p < PIECE_COUNT
      ensures 0 <= Initial().pos[p] < BOARD_SIZE && Initial().board[Initial().pos[p]] == p
      ensures !IsTryCandidate(Initial(), South, p)
    {
      InitialPlacement(p);
    }
    forall square | 0 <= square < BOARD_SIZE
      ensures -1 <= Initial().board[square] < PIECE_COUNT
      ensures Initial().board[square] >= 0 ==> Initial().pos[Initial().board[square]] == square
    {
      InitialSquare(square);
    }
    forall p, q | 0 <= p < q < PIECE_COUNT
      ensures Initial().pos[p] != Initial().pos[q]
    {
      assert Initial().board[Initial().pos[p]] == p && Initial().board[Initial().pos[q]] == q;
    }
  }

  /** Play starts inside the invariant. */
  lemma InitialIsPlayable()
    ensures Playable(Initial())
  {
    InitialIsClosed();
    hide Closed;
    InitialAgrees();
  }
}
