/** One move as a function of the state: the ordered phases of a transition, each of which may refuse.

    The order is collapse and promotion, capture and demotion, placement, propagation, captured-Lion
    resolution, turn and side, terminal detection, hash.
 */
module Transition {
  import opened Animals
  import opened Propagation
  import opened States

  const TURN_MODULUS := 0x1_0000

  predicate PreconditionsHold(s: State, m: Move)
    requires |s.board| == BOARD_SIZE && |s.pos| == |s.owner| == PIECE_COUNT
    requires forall square :: 0 <= square < BOARD_SIZE ==> s.board[square] < PIECE_COUNT
  {
    && s.terminal == Ongoing && m.Valid()
    && s.owner[m.piece] == s.sideToMove && s.pos[m.piece] == m.from
    && (s.board[m.to] < 0 || s.owner[s.board[m.to]] != s.sideToMove)
  }

  /** Movement collapse, promotion and removal from the source square. */
  function Lifted(s: State, m: Move, mover: Side): Option<State>
    requires |s.board| == BOARD_SIZE && |s.mask| == PIECE_COUNT && m.Valid()
  {
    if IsHandPosition(m.from) then
      if s.board[m.to] == EMPTY_SQUARE then Some(s) else None
    else if s.board[m.from] != m.piece then None
    else
      var collapsed := s.mask[m.piece].Meet(Movers(mover, m.from, m.to));
      if collapsed.IsEmpty() then None
      else
        var settled := if IsBackRank(m.to, mover) then collapsed.Promoted() else collapsed;
        Some(s.(mask := s.mask[m.piece := settled], board := s.board[m.from := EMPTY_SQUARE]))
  }

  predicate SlotUsed(pos: seq<int>, excluded: int, slot: int) {
    exists p :: 0 <= p < |pos| && p != excluded && pos[p] == slot
  }

  /** The lowest hand slot from the given one on that no piece other than the excluded one occupies. */
  function LowestFreeSlot(pos: seq<int>, excluded: int, slot: int): int
    decreases SOURCE_COUNT - slot
  {
    if slot >= SOURCE_COUNT then -1
    else if !SlotUsed(pos, excluded, slot) then slot
    else LowestFreeSlot(pos, excluded, slot + 1)
  }

  /** Transfer of a captured piece to the lowest free hand slot of its captor, Hen becoming Chick. */
  function Captured(s: State, m: Move, mover: Side): Option<State>
    requires |s.board| == BOARD_SIZE && |s.pos| == |s.mask| == |s.owner| == PIECE_COUNT && m.Valid()
    requires forall square :: 0 <= square < BOARD_SIZE ==> s.board[square] < PIECE_COUNT
  {
    var captured := s.board[m.to];
    if captured < 0 then Some(s)
    else
      var slot := LowestFreeSlot(s.pos, captured, FIRST_HAND_SLOT);
      if slot < 0 then None
      else Some(s.(pos := s.pos[captured := slot], owner := s.owner[captured := mover],
                   mask := s.mask[captured := s.mask[captured].Demoted()]))
  }

  function Placed(s: State, m: Move): State
    requires |s.board| == BOARD_SIZE && |s.pos| == PIECE_COUNT && m.Valid()
  {
    s.(board := s.board[m.to := m.piece], pos := s.pos[m.piece := m.to])
  }

  ghost function Propagated(s: State): Option<State>
    requires |s.mask| == PIECE_COUNT
  {
    if Satisfiable(s.origin, s.mask) then Some(s.(mask := Closure(s.origin, s.mask))) else None
  }

  predicate HasLionCandidate(s: State, side: Side)
    requires |s.mask| == |s.owner| == PIECE_COUNT
  {
    exists p :: 0 <= p < PIECE_COUNT && s.owner[p] == side && s.mask[p].lion
  }

  predicate IsHandLion(s: State, side: Side, p: int)
    requires |s.pos| == |s.mask| == |s.owner| == PIECE_COUNT && 0 <= p < PIECE_COUNT
  {
    s.owner[p] == side && IsHandPosition(s.pos[p]) && s.mask[p].lion
  }

  predicate HasHandLionCandidate(s: State, side: Side)
    requires |s.pos| == |s.mask| == |s.owner| == PIECE_COUNT
  {
    exists p :: 0 <= p < PIECE_COUNT && IsHandLion(s, side, p)
  }

  predicate IsTryCandidate(s: State, side: Side, p: int)
    requires |s.pos| == |s.mask| == |s.owner| == PIECE_COUNT && 0 <= p < PIECE_COUNT
  {
    s.owner[p] == side && s.pos[p] < BOARD_SIZE && IsBackRank(s.pos[p], side) && s.mask[p].lion
  }

  predicate HasSurvivingTry(s: State, side: Side)
    requires |s.pos| == |s.mask| == |s.owner| == PIECE_COUNT
  {
    exists p :: 0 <= p < PIECE_COUNT && IsTryCandidate(s, side, p)
  }

  /** Removes Lion from every hand piece of the mover. */
  function RefutedLions(s: State, mover: Side): (r: seq<Mask>)
    requires |s.pos| == |s.mask| == |s.owner| == PIECE_COUNT
    ensures |r| == PIECE_COUNT
  {
    seq(PIECE_COUNT, p requires 0 <= p < PIECE_COUNT =>
      if IsHandLion(s, mover, p) then s.mask[p].WithoutLion() else s.mask[p])
  }

  /** While the opponent still owns a Lion candidate, captured pieces turn out not to be Lions. */
  ghost function Resolved(s: State, mover: Side): Option<State>
    requires |s.pos| == |s.mask| == |s.owner| == PIECE_COUNT
  {
    if !HasLionCandidate(s, mover.Opposite()) || !HasHandLionCandidate(s, mover) then Some(s)
    else
      if exists p :: 0 <= p < PIECE_COUNT && IsHandLion(s, mover, p) && s.mask[p].WithoutLion().IsEmpty() then None
      else Propagated(s.(mask := RefutedLions(s, mover)))
  }

  /** Surviving Try first, then Catch, then the turn limit. */
  function Judged(s: State, mover: Side): State
    requires |s.pos| == |s.mask| == |s.owner| == PIECE_COUNT
  {
    if HasSurvivingTry(s, s.sideToMove) then s.(terminal := Try, winner := SideIndex(s.sideToMove))
    else if HasHandLionCandidate(s, mover) then s.(terminal := Catch, winner := SideIndex(mover))
    else if s.turn >= TURN_LIMIT then s.(terminal := Draw, winner := NO_WINNER)
    else s
  }

  function Passed(s: State, mover: Side): State {
    s.(turn := (s.turn + 1) % TURN_MODULUS, sideToMove := mover.Opposite())
  }

  /** The state once the moving piece stands on its destination, before any propagation. */
  function Moved(s: State, m: Move): Option<State>
    requires Shaped(s)
  {
    if !PreconditionsHold(s, m) then None
    else
      var lifted :- Lifted(s, m, s.sideToMove);
      var captured :- Captured(lifted, m, s.sideToMove);
      Some(Placed(captured, m))
  }

  /** The position after the move's first propagation. */
  ghost function FirstPropagation(s: State, m: Move): Option<State>
    requires Shaped(s)
  {
    var moved :- Moved(s, m);
    Propagated(moved)
  }

  /** The first propagation and, for a board move, captured-Lion resolution. */
  ghost function Settled(s: State, m: Move): Option<State>
    requires Shaped(s)
  {
    var propagated :- FirstPropagation(s, m);
    if m.from < BOARD_SIZE then Resolved(propagated, s.sideToMove) else Some(propagated)
  }

  lemma FreeSlotInRange(pos: seq<int>, excluded: int, slot: int)
    requires 0 <= slot
    ensures LowestFreeSlot(pos, excluded, slot) < SOURCE_COUNT
    decreases SOURCE_COUNT - slot
  {
  }

  lemma MovedIsShaped(s: State, m: Move)
    requires Shaped(s) && Moved(s, m).Some?
    ensures Shaped(Moved(s, m).value)
  {
    if s.board[m.to] >= 0 {
      FreeSlotInRange(s.pos, s.board[m.to], FIRST_HAND_SLOT);
    }
    hide LowestFreeSlot, Movers;
  }

  lemma SettledIsShaped(s: State, m: Move)
    requires Shaped(s) && Settled(s, m).Some?
    ensures Shaped(Settled(s, m).value)
  {
    MovedIsShaped(s, m);
    hide Moved, Satisfiable, HasLionCandidate;
  }

  lemma FinishedIsShaped(s: State, mover: Side)
    requires Shaped(s)
    ensures Shaped(Finished(s, mover))
  {
    hide HasSurvivingTry, HasHandLionCandidate;
  }

  /** The whole transition, or None when the move is refused. */
  ghost function Apply(s: State, m: Move): (r: Option<State>)
    ensures r.Some? ==> Shaped(s) && Shaped(r.value)
  {
    if !Shaped(s) then None
    else
      hide Settled, Finished;
      var settled :- Settled(s, m);
      SettledIsShaped(s, m);
      FinishedIsShaped(settled, s.sideToMove);
      Some(Finished(settled, s.sideToMove))
  }

  function Finished(s: State, mover: Side): (r: State)
    requires |s.pos| == |s.mask| == |s.owner| == PIECE_COUNT
  {
    Rehashed(Judged(Passed(s, mover), mover))
  }
}
