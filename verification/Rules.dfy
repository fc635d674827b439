/** The transition pipeline on a mutable position. Each phase updates the position in place and is
    proved to compute the corresponding phase of Transition; a refused move restores the position.
 */
module Rules {
  import opened Animals
  import opened States
  import opened Transition
  import opened LineageTables
  import opened Propagators
  import MoveTables

  /** The process-wide immutable tables. */
  datatype RuleTables = RuleTables(lineage: seq<Entry>, moves: MoveTables.Tables)

  ghost predicate ValidTables(t: RuleTables)
  {
    IsLineageTable(t.lineage) && MoveTables.Valid(t.moves)
  }

  method BuildTables() returns (t: RuleTables)
    ensures ValidTables(t)
  {
    var lineage := BuildLineageTable();
    var moves := MoveTables.BuildMoveTables();
    t := RuleTables(lineage, moves);
  }

  method MovePreconditionsHold(state: Position, move: Move) returns (ok: bool)
    requires Shaped(state.Snapshot())
    ensures ok <==> PreconditionsHold(state.Snapshot(), move)
  {
    if state.terminal != Ongoing || !move.Valid() {
      return false;
    }
    var piece, mover := move.piece, state.sideToMove;
    if state.owner[piece] != mover || state.pos[piece] != move.from {
      return false;
    }
    ok := state.board[move.to] < 0 || state.owner[state.board[move.to]] != mover;
  }

  method ApplyMoveOriginEffects(state: Position, move: Move, mover: Side, t: RuleTables) returns (ok: bool)
    requires Shaped(state.Snapshot()) && move.Valid() && ValidTables(t)
    modifies state`mask, state`board
    ensures Shaped(state.Snapshot())
    ensures ok <==> Lifted(old(state.Snapshot()), move, mover).Some?
    ensures ok ==> state.Snapshot() == Lifted(old(state.Snapshot()), move, mover).value
  {
    if IsHandPosition(move.from) {
      return state.board[move.to] == EMPTY_SQUARE;
    }
    var piece := move.piece;
    if move.from >= BOARD_SIZE || state.board[move.from] != piece {
      return false;
    }
    assert MoveTables.PossibleEntry(t.moves.possible, mover, move.from, move.to);
    var movers := t.moves.possible[(mover, move.from, move.to)];
    state.mask := state.mask[piece := state.mask[piece].Meet(movers)];
    if state.mask[piece].IsEmpty() {
      return false;
    }
    if IsBackRank(move.to, mover) && state.mask[piece].chick {
      state.mask := state.mask[piece := state.mask[piece].(chick := false, hen := true)];
    }
    state.board := state.board[move.from := EMPTY_SQUARE];
    ok := true;
  }

  /** Scans the positions once, then takes the first slot left unmarked. */
  method UnusedHandSlot(state: Position, excluded: int) returns (slot: int)
    requires Shaped(state.Snapshot())
    ensures slot == LowestFreeSlot(state.pos, excluded, FIRST_HAND_SLOT)
  {
    var used := seq(PIECE_COUNT, _ => false);
    for piece := 0 to PIECE_COUNT
      invariant |used| == PIECE_COUNT
      invariant forall i :: 0 <= i < PIECE_COUNT ==>
                  (used[i] <==> exists p :: 0 <= p < piece && p != excluded && state.pos[p] == FIRST_HAND_SLOT + i)
    {
      if piece == excluded || !IsHandPosition(state.pos[piece]) {
        continue;
      }
      used := used[state.pos[piece] - FIRST_HAND_SLOT := true];
    }
    var index := 0;
    while index < PIECE_COUNT
      invariant 0 <= index <= PIECE_COUNT
      invariant LowestFreeSlot(state.pos, excluded, FIRST_HAND_SLOT) ==
                  LowestFreeSlot(state.pos, excluded, FIRST_HAND_SLOT + index)
    {
      assert used[index] <==> SlotUsed(state.pos, excluded, FIRST_HAND_SLOT + index);
      if !used[index] {
        return FIRST_HAND_SLOT + index;
      }
      index := index + 1;
    }
    slot := -1;
  }

  lemma LowestFreeSlotInRange(pos: seq<int>, excluded: int, slot: int)
    ensures LowestFreeSlot(pos, excluded, slot) >= 0 && slot >= 0 ==>
              slot <= LowestFreeSlot(pos, excluded, slot) < SOURCE_COUNT
    ensures LowestFreeSlot(pos, excluded, slot) >= 0 ==> !SlotUsed(pos, excluded, LowestFreeSlot(pos, excluded, slot))
    decreases SOURCE_COUNT - slot
  {
  }

  method CaptureDestinationPiece(state: Position, move: Move, mover: Side) returns (ok: bool)
    requires Shaped(state.Snapshot()) && move.Valid()
    modifies state`pos, state`owner, state`mask
    ensures Shaped(state.Snapshot())
    ensures ok <==> Transition.Captured(old(state.Snapshot()), move, mover).Some?
    ensures ok ==> state.Snapshot() == Transition.Captured(old(state.Snapshot()), move, mover).value
  {
    var captured := state.board[move.to];
    if captured < 0 {
      return true;
    }
    var handSlot := UnusedHandSlot(state, captured);
    if handSlot < 0 {
      return false;
    }
    LowestFreeSlotInRange(state.pos, captured, FIRST_HAND_SLOT);
    state.pos := state.pos[captured := handSlot];
    state.owner := state.owner[captured := mover];
    var capturedMask := state.mask[captured];
    if capturedMask.hen {
      capturedMask := capturedMask.(hen := false, chick := true);
    }
    state.mask := state.mask[captured := capturedMask];
    ok := true;
  }

  method PlaceMovingPiece(state: Position, move: Move)
    requires Shaped(state.Snapshot()) && move.Valid()
    modifies state`board, state`pos
    ensures Shaped(state.Snapshot())
    ensures state.Snapshot() == Placed(old(state.Snapshot()), move)
  {
    state.board := state.board[move.to := move.piece];
    state.pos := state.pos[move.piece := move.to];
  }

  method PropagateTransition(state: Position, mode: PropagationMode, t: RuleTables) returns (ok: bool)
    requires Shaped(state.Snapshot()) && ValidTables(t)
    modifies state`mask
    ensures Shaped(state.Snapshot())
    ensures ok <==> Propagated(old(state.Snapshot())).Some?
    ensures ok ==> state.Snapshot() == Propagated(old(state.Snapshot())).value
  {
    var passes;
    ok, passes := Propagate(state, mode, t.lineage);
  }

  method HasLionCandidateOwnedBy(state: Position, side: Side) returns (found: bool)
    requires Shaped(state.Snapshot())
    ensures found <==> HasLionCandidate(state.Snapshot(), side)
  {
    for piece := 0 to PIECE_COUNT
      invariant forall p :: 0 <= p < piece ==> !(state.owner[p] == side && state.mask[p].lion)
    {
      if state.owner[piece] == side && state.mask[piece].lion {
        return true;
      }
    }
    found := false;
  }

  /** Removes Lion from the mover's hand, stopping at a piece left with no form. */
  method RefuteHandLions(state: Position, mover: Side) returns (ok: bool, changed: bool)
    requires Shaped(state.Snapshot())
    modifies state`mask
    ensures |state.mask| == PIECE_COUNT
    ensures ok <==> forall p :: 0 <= p < PIECE_COUNT && IsHandLion(old(state.Snapshot()), mover, p) ==>
                      !old(state.mask)[p].WithoutLion().IsEmpty()
    ensures ok ==> state.mask == RefutedLions(old(state.Snapshot()), mover)
    ensures ok ==> (changed <==> HasHandLionCandidate(old(state.Snapshot()), mover))
  {
    ghost var before := state.Snapshot();
    changed := false;
    for piece := 0 to PIECE_COUNT
      invariant |state.mask| == PIECE_COUNT
      invariant forall p :: 0 <= p < piece ==>
                  state.mask[p] == if IsHandLion(before, mover, p) then before.mask[p].WithoutLion() else before.mask[p]
      invariant forall p :: piece <= p < PIECE_COUNT ==> state.mask[p] == before.mask[p]
      invariant changed <==> exists p :: 0 <= p < piece && IsHandLion(before, mover, p)
      invariant forall p :: 0 <= p < piece && IsHandLion(before, mover, p) ==> !before.mask[p].WithoutLion().IsEmpty()
    {
      assert IsHandLion(before, mover, piece) <==>
               state.owner[piece] == mover && IsHandPosition(state.pos[piece]) && state.mask[piece].lion;
      if state.owner[piece] != mover || !IsHandPosition(state.pos[piece]) || !state.mask[piece].lion {
        continue;
      }
      state.mask := state.mask[piece := state.mask[piece].WithoutLion()];
      if state.mask[piece].IsEmpty() {
        return false, changed;
      }
      changed := true;
    }
    ok := true;
  }

  method ResolveCapturedLionCandidates(state: Position, mover: Side, mode: PropagationMode, t: RuleTables)
    returns (ok: bool)
    requires Shaped(state.Snapshot()) && ValidTables(t)
    modifies state`mask
    ensures Shaped(state.Snapshot())
    ensures ok <==> Resolved(old(state.Snapshot()), mover).Some?
    ensures ok ==> state.Snapshot() == Resolved(old(state.Snapshot()), mover).value
  {
    var defended := HasLionCandidateOwnedBy(state, mover.Opposite());
    if !defended {
      return true;
    }
    ghost var before := state.Snapshot();
    hide IsHandLion, HasLionCandidate;
    var changed;
    ok, changed := RefuteHandLions(state, mover);
    if ok && changed {
      ok := PropagateTransition(state, mode, t);
    } else if ok {
      NothingRefuted(before, mover);
    }
  }

  lemma NothingRefuted(s: State, mover: Side)
    requires |s.pos| == |s.mask| == |s.owner| == PIECE_COUNT && !HasHandLionCandidate(s, mover)
    ensures RefutedLions(s, mover) == s.mask
  {
  }

  method UpdateTerminalStatus(state: Position, mover: Side)
    requires Shaped(state.Snapshot())
    modifies state`terminal, state`winner
    ensures Shaped(state.Snapshot())
    ensures state.Snapshot() == Judged(old(state.Snapshot()), mover)
  {
    var surviving := HasSurvivingTryCandidate(state, state.sideToMove);
    var caught := HasHandLionCandidateOwnedBy(state, mover);
    if surviving {
      state.terminal := Try;
      state.winner := SideIndex(state.sideToMove);
    } else if caught {
      state.terminal := Catch;
      state.winner := SideIndex(mover);
    } else if state.turn >= TURN_LIMIT {
      state.terminal := Draw;
      state.winner := NO_WINNER;
    }
  }

  method HasHandLionCandidateOwnedBy(state: Position, side: Side) returns (found: bool)
    requires Shaped(state.Snapshot())
    ensures found <==> HasHandLionCandidate(state.Snapshot(), side)
  {
    for piece := 0 to PIECE_COUNT
      invariant forall p :: 0 <= p < piece ==> !IsHandLion(state.Snapshot(), side, p)
    {
      if state.owner[piece] == side && IsHandPosition(state.pos[piece]) && state.mask[piece].lion {
        assert IsHandLion(state.Snapshot(), side, piece);
        return true;
      }
    }
    found := false;
  }

  method HasSurvivingTryCandidate(state: Position, side: Side) returns (found: bool)
    requires Shaped(state.Snapshot())
    ensures found <==> HasSurvivingTry(state.Snapshot(), side)
  {
    for piece := 0 to PIECE_COUNT
      invariant forall p :: 0 <= p < piece ==> !IsTryCandidate(state.Snapshot(), side, p)
    {
      if state.owner[piece] == side && state.pos[piece] < BOARD_SIZE && IsBackRank(state.pos[piece], side)
         && state.mask[piece].lion {
        assert IsTryCandidate(state.Snapshot(), side, piece);
        return true;
      }
    }
    found := false;
  }

  /** The phases that may refuse a move, in order; a refusal leaves the position half changed. */
  method RunPhases(state: Position, move: Move, mode: PropagationMode, t: RuleTables) returns (ok: bool)
    requires Shaped(state.Snapshot()) && ValidTables(t) && PreconditionsHold(state.Snapshot(), move)
    modifies state`board, state`pos, state`mask, state`owner
    ensures Shaped(state.Snapshot())
    ensures ok <==> Settled(old(state.Snapshot()), move).Some?
    ensures ok ==> state.Snapshot() == Settled(old(state.Snapshot()), move).value
  {
    ghost var before := state.Snapshot();
    var mover := state.sideToMove;
    hide Shaped, Lifted, Transition.Captured, Placed, Propagated, Resolved;
    ok := ApplyMoveOriginEffects(state, move, mover, t);
    if !ok {
      return;
    }
    ok := CaptureDestinationPiece(state, move, mover);
    if !ok {
      return;
    }
    PlaceMovingPiece(state, move);
    assert Moved(before, move) == Some(state.Snapshot());
    ok := PropagateTransition(state, mode, t);
    if !ok {
      return;
    }
    if move.from < BOARD_SIZE {
      ok := ResolveCapturedLionCandidates(state, mover, mode, t);
    }
  }

  method FinishMove(state: Position, mover: Side)
    requires Shaped(state.Snapshot())
    modifies state`turn, state`sideToMove, state`terminal, state`winner, state`hash
    ensures Shaped(state.Snapshot())
    ensures state.Snapshot() == Finished(old(state.Snapshot()), mover)
  {
    state.turn := (state.turn + 1) % TURN_MODULUS;
    state.sideToMove := mover.Opposite();
    UpdateTerminalStatus(state, mover);
    state.RecomputeHash();
  }

  /** A complete transition in place. It succeeds exactly when the transition function accepts the
      move, in either propagation mode; otherwise the position is what it was. */
  method ApplyMove(state: Position, move: Move, mode: PropagationMode, t: RuleTables) returns (ok: bool, undo: State)
    requires Shaped(state.Snapshot()) && ValidTables(t)
    modifies state
    ensures undo == old(state.Snapshot())
    ensures ok <==> Apply(old(state.Snapshot()), move).Some?
    ensures state.Snapshot() == if ok then Apply(old(state.Snapshot()), move).value else old(state.Snapshot())
    ensures Shaped(state.Snapshot())
  {
    undo := state.Snapshot();
    hide Shaped, Settled, Finished;
    ok := MovePreconditionsHold(state, move);
    if !ok {
      state.Restore(undo);
      return;
    }
    var mover := state.sideToMove;
    ok := RunPhases(state, move, mode, t);
    if !ok {
      state.Restore(undo);
      return;
    }
    FinishMove(state, mover);
  }

  method UndoMove(state: Position, undo: State)
    modifies state
    ensures state.Snapshot() == undo
  {
    state.Restore(undo);
  }
}
