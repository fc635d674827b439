/** What every transition keeps, why no pseudo-legal move can be refused, and who can win how.

    Playable is the inductive invariant of ongoing play. Sound is the part that a final position keeps
    too: after a Catch a Lion candidate lies in the captor's hand, so custody has ended.
 */
module Invariants {
  import opened Animals
  import opened FiniteSets
  import opened Propagation
  import opened States
  import opened Transition
  import opened Rules
  import opened MoveGeneration

  /** Every piece that may be a Lion is on the board and belongs to the side it started with. */
  ghost predicate Custody(s: State)
  {
    && |s.pos| == |s.mask| == |s.owner| == |s.origin| == PIECE_COUNT
    && forall p :: 0 <= p < PIECE_COUNT && s.mask[p].lion ==> IsBoardSquare(s.pos[p]) && s.owner[p] == s.origin[p]
  }

  /** No piece may be both Chick and Hen, and no hand piece may be a Hen. */
  ghost predicate FormsSettled(s: State)
  {
    && |s.pos| == |s.mask| == PIECE_COUNT
    && forall p :: 0 <= p < PIECE_COUNT ==>
      !(s.mask[p].chick && s.mask[p].hen) && (s.mask[p].hen ==> IsBoardSquare(s.pos[p]))
  }

  /** Placement, identities and forms, whatever the turn, terminal and hash fields say. */
  ghost predicate Coherent(s: State)
  {
    Agree(s) && Closed(s.origin, s.mask) && FormsSettled(s)
  }

  ghost predicate Sound(s: State)
  {
    Coherent(s) && s.hash == ZobristHash(s)
  }

  ghost predicate Playable(s: State)
  {
    && Sound(s) && Custody(s) && !HasSurvivingTry(s, s.sideToMove)
    && s.terminal == Ongoing && s.turn < TURN_LIMIT && s.winner == NO_WINNER
  }

  lemma CoherentIsShaped(s: State)
    requires Coherent(s)
    ensures Shaped(s)
  {
  }

  /** What the validity check accepts, at the fixed point or not, whatever the forms. */
  ghost predicate Lawful(s: State)
  {
    Agree(s) && Satisfiable(s.origin, s.mask)
  }

  /** A position a search may start from: no more than a parsed state or a state of play is. */
  ghost predicate Searchable(s: State)
  {
    && Lawful(s) && s.hash == ZobristHash(s)
    && s.turn <= TURN_LIMIT && (s.terminal == Ongoing ==> s.turn < TURN_LIMIT)
  }

  lemma PlayableIsSearchable(s: State)
    requires Playable(s)
    ensures Searchable(s)
  {
    hide Agree, Custody, HasSurvivingTry, FormsSettled;
  }

  lemma LawfulIsShaped(s: State)
    requires Lawful(s)
    ensures Shaped(s)
  {
    hide Satisfiable;
  }

  // ---------------------------------------------------------------- a free hand slot

  lemma {:induction false} NoFreeSlotMeansAllUsed(pos: seq<int>, excluded: int, slot: int)
    requires LowestFreeSlot(pos, excluded, slot) < 0 <= slot
    ensures forall x :: slot <= x < SOURCE_COUNT ==> SlotUsed(pos, excluded, x)
    decreases SOURCE_COUNT - slot
  {
    if slot < SOURCE_COUNT {
      NoFreeSlotMeansAllUsed(pos, excluded, slot + 1);
    }
  }

  /** Seven pieces cannot fill eight hand slots. */
  lemma FreeSlotExists(pos: seq<int>, excluded: int)
    requires |pos| == PIECE_COUNT && 0 <= excluded < PIECE_COUNT
    ensures var slot := LowestFreeSlot(pos, excluded, FIRST_HAND_SLOT);
            IsHandPosition(slot) && !SlotUsed(pos, excluded, slot)
  {
    hide Range, LowestFreeSlot;
    if LowestFreeSlot(pos, excluded, FIRST_HAND_SLOT) < 0 {
      NoFreeSlotMeansAllUsed(pos, excluded, FIRST_HAND_SLOT);
      var others := Range(0, PIECE_COUNT) - {excluded};
      assert |others| == PIECE_COUNT - 1;
      var image := set p | p in others :: pos[p];
      ImageSize(pos, others, image);
      var slots := Range(FIRST_HAND_SLOT, SOURCE_COUNT - FIRST_HAND_SLOT);
      forall x | x in slots
        ensures x in image
      {
        assert SlotUsed(pos, excluded, x);
      }
      SubsetSize(slots, image);
    }
    LowestFreeSlotInRange(pos, excluded, FIRST_HAND_SLOT);
  }

  // ---------------------------------------------------------------- the moved position

  function MovedMask(s: State, m: Move): Mask
    requires |s.mask| == PIECE_COUNT && 0 <= m.piece < PIECE_COUNT
  {
    if IsHandPosition(m.from) then s.mask[m.piece]
    else
      var collapsed := s.mask[m.piece].Meet(Movers(s.sideToMove, m.from, m.to));
      if IsBackRank(m.to, s.sideToMove) then collapsed.Promoted() else collapsed
  }

  /** How placement, ownership and masks look once the piece has moved and before propagation. */
  ghost predicate Effect(s: State, m: Move, t: State)
    requires Agree(s) && IsPseudoLegal(s, m) && Shaped(t)
  {
    var captured := s.board[m.to];
    && captured != m.piece
    && t.origin == s.origin && t.sideToMove == s.sideToMove && t.turn == s.turn
    && t.terminal == s.terminal && t.winner == s.winner
    && t.pos[m.piece] == m.to && (captured >= 0 ==> IsHandPosition(t.pos[captured]))
    && (forall p :: 0 <= p < PIECE_COUNT && p != m.piece && p != captured ==> t.pos[p] == s.pos[p])
    && (forall p :: 0 <= p < PIECE_COUNT ==> t.owner[p] == if p == captured then s.sideToMove else s.owner[p])
    && (forall p :: 0 <= p < PIECE_COUNT ==>
          t.mask[p] == if p == m.piece then MovedMask(s, m)
                       else if p == captured then s.mask[p].Demoted() else s.mask[p])
  }

  lemma MoveTakesEffect(s: State, m: Move)
    requires Agree(s) && IsPseudoLegal(s, m)
    ensures Moved(s, m).Some? && Effect(s, m, Moved(s, m).value) && Agree(Moved(s, m).value)
  {
    var captured := s.board[m.to];
    if captured >= 0 {
      FreeSlotExists(s.pos, captured);
    }
    hide LowestFreeSlot, SlotUsed;
    MovedAgrees(s, m);
  }

  lemma MovedAgrees(s: State, m: Move)
    requires Agree(s) && IsPseudoLegal(s, m) && Moved(s, m).Some?
    ensures Agree(Moved(s, m).value)
  {
    var captured := s.board[m.to];
    if captured >= 0 {
      FreeSlotExists(s.pos, captured);
    }
    PlacementAgrees(s, m, captured, if captured >= 0 then LowestFreeSlot(s.pos, captured, FIRST_HAND_SLOT) else -1,
                    Moved(s, m).value);
  }

  lemma PlacementAgrees(s: State, m: Move, captured: int, slot: int, t: State)
    requires Agree(s) && m.Valid() && s.pos[m.piece] == m.from && captured == s.board[m.to] && captured != m.piece
    requires IsHandPosition(m.from) ==> captured < 0
    requires captured >= 0 ==> IsHandPosition(slot) && !SlotUsed(s.pos, captured, slot)
    requires |t.mask| == |t.owner| == |t.origin| == PIECE_COUNT
    requires t.pos == (if captured >= 0 then s.pos[captured := slot] else s.pos)[m.piece := m.to]
    requires t.board == (if IsHandPosition(m.from) then s.board else s.board[m.from := EMPTY_SQUARE])[m.to := m.piece]
    ensures Agree(t)
  {
    forall p, q | 0 <= p < q < PIECE_COUNT
      ensures t.pos[p] != t.pos[q]
    {
      assert s.pos[p] != s.pos[q];
    }
  }

  lemma OnlyPseudoLegalMoves(s: State, m: Move)
    requires Agree(s) && Moved(s, m).Some?
    ensures IsPseudoLegal(s, m)
  {
  }

  // ---------------------------------------------------------------- identities after the move

  /** Keeping a lineage of the piece that moved keeps a whole assignment: every other piece's lineages
      are untouched by promotion and demotion. */
  lemma MovedSatisfiable(s: State, m: Move)
    requires Coherent(s) && IsPseudoLegal(s, m)
    ensures Moved(s, m).Some? && Propagated(Moved(s, m).value).Some?
  {
    MoveTakesEffect(s, m);
    var t := Moved(s, m).value;
    var x := SomeLineage(MovedMask(s, m));
    if IsHandPosition(m.from) {
      var b :| Fits(s.origin, s.mask, b);
      x := b[m.piece];
    }
    assert MovedMask(s, m).Lines().Has(x) && s.mask[m.piece].Lines().Has(x);
    var a := ClosedHasWitness(s.origin, s.mask, m.piece, x);
    hide Moved, MovedMask, Closed;
    forall p | 0 <= p < PIECE_COUNT
      ensures t.mask[p].Lines().Has(a[p])
    {
    }
    assert Fits(t.origin, t.mask, a);
  }

  function SomeLineage(m: Mask): Lineage {
    if m.lion then LionLine else if m.elephant then ElephantLine else if m.giraffe then GiraffeLine else ChickLine
  }

  /** Where pieces stand, who owns them and which may be Lions after a move, seen from before it. */
  ghost predicate Follows(s: State, m: Move, u: State)
  {
    && Shaped(s) && Shaped(u) && m.Valid()
    && var captured := s.board[m.to];
    && captured != m.piece && u.origin == s.origin
    && u.pos[m.piece] == m.to && (captured >= 0 ==> IsHandPosition(u.pos[captured]))
    && (forall p :: 0 <= p < PIECE_COUNT && p != m.piece && p != captured ==> u.pos[p] == s.pos[p])
    && (forall p :: 0 <= p < PIECE_COUNT ==> u.owner[p] == if p == captured then s.sideToMove else s.owner[p])
    && (forall p :: 0 <= p < PIECE_COUNT && u.mask[p].lion ==> s.mask[p].lion)
  }

  ghost predicate Landed(s: State, m: Move, u: State)
  {
    && Follows(s, m, u)
    && u.sideToMove == s.sideToMove && u.turn == s.turn && u.terminal == s.terminal && u.winner == s.winner
  }

  lemma FirstPropagationLands(s: State, m: Move)
    requires Coherent(s) && IsPseudoLegal(s, m)
    ensures FirstPropagation(s, m).Some?
    ensures var u := FirstPropagation(s, m).value; Coherent(u) && Landed(s, m, u)
  {
    MoveTakesEffect(s, m);
    MovedSatisfiable(s, m);
    var t := Moved(s, m).value;
    MovedFormsSettled(s, m, t);
    hide Moved, MovedMask, IsPseudoLegal;
    ClosureIsCoherent(t);
  }

  lemma ClosureIsCoherent(t: State)
    requires Agree(t) && FormsSettled(t) && Satisfiable(t.origin, t.mask)
    ensures var u := t.(mask := Closure(t.origin, t.mask));
            Coherent(u) && forall p :: 0 <= p < PIECE_COUNT && u.mask[p].lion ==> t.mask[p].lion
  {
    ClosureIsClosed(t.origin, t.mask);
    hide Satisfiable, Closed;
  }

  lemma MovedFormsSettled(s: State, m: Move, t: State)
    requires Coherent(s) && IsPseudoLegal(s, m) && Agree(t) && Effect(s, m, t)
    ensures FormsSettled(t)
    ensures forall p :: 0 <= p < PIECE_COUNT && t.mask[p].lion ==> s.mask[p].lion
  {
    hide Closed, Movers;
  }

  /** Four pieces with four distinct lineages include a Lion. */
  lemma EachOriginHasLion(origin: seq<Side>, mask: seq<Mask>, side: Side) returns (p: int)
    requires Closed(origin, mask)
    ensures |origin| == PIECE_COUNT && 0 <= p < PIECE_COUNT && origin[p] == side && mask[p].lion
  {
    var a :| Fits(origin, mask, a);
    p := AssignmentHasLion(origin, mask, side, a);
  }

  lemma AssignmentHasLion(origin: seq<Side>, mask: seq<Mask>, side: Side, a: Assignment) returns (p: int)
    requires Fits(origin, mask, a)
    ensures 0 <= p < PIECE_COUNT && origin[p] == side && a[p] == LionLine && mask[p].lion
  {
    SatisfiableGroupsOfFour(origin, mask);
    var group := Group(origin, side);
    if forall q :: q in group ==> a[q] != LionLine {
      DistinctLineagesBound(group, a, 3);
    }
    p :| p in group && a[p] == LionLine;
  }

  // ---------------------------------------------------------------- custody through a move

  /** After the first propagation a Lion candidate is in custody unless it is the captured piece. */
  lemma CustodyButForCaptured(s: State, m: Move, u: State)
    requires Agree(s) && Custody(s) && IsPseudoLegal(s, m) && Agree(u) && Landed(s, m, u)
    ensures forall p :: 0 <= p < PIECE_COUNT && u.mask[p].lion && p != s.board[m.to] ==>
              IsBoardSquare(u.pos[p]) && u.owner[p] == u.origin[p]
    ensures forall p :: 0 <= p < PIECE_COUNT ==>
              (IsHandLion(u, s.sideToMove, p) <==> p == s.board[m.to] && u.mask[p].lion)
    ensures s.board[m.to] >= 0 && u.mask[s.board[m.to]].lion ==> s.origin[s.board[m.to]] == s.sideToMove.Opposite()
  {
    hide Movers;
  }

  /** The two ways a move can come out of captured-Lion resolution. */
  lemma ResolutionOutcome(s: State, m: Move, u: State) returns (v: State)
    requires Coherent(s) && Custody(s) && IsPseudoLegal(s, m) && Coherent(u) && Landed(s, m, u)
    ensures Resolved(u, s.sideToMove) == Some(v) && Coherent(v) && Landed(s, m, v)
    ensures HasLionCandidate(u, s.sideToMove.Opposite()) <==> Custody(v)
    ensures !Custody(v) ==> v == u && HasHandLionCandidate(v, s.sideToMove)
  {
    CustodyButForCaptured(s, m, u);
    if HasLionCandidate(u, s.sideToMove.Opposite()) && HasHandLionCandidate(u, s.sideToMove) {
      v := CapturedIsNoLion(s, m, u);
    } else {
      v := u;
      var p := EachOriginHasLion(u.origin, u.mask, s.sideToMove.Opposite());
    }
  }

  /** If another piece of the same origin may be the Lion, this one need not be. */
  lemma LionElsewhere(origin: seq<Side>, mask: seq<Mask>, c: int, d: int)
    requires Closed(origin, mask) && 0 <= c < PIECE_COUNT && 0 <= d < PIECE_COUNT && c != d
    requires |origin| == PIECE_COUNT && origin[c] == origin[d] && mask[d].lion
    ensures !mask[c].WithoutLion().IsEmpty()
    ensures Satisfiable(origin, mask[c := mask[c].WithoutLion()])
  {
    var a := ClosedHasWitness(origin, mask, d, LionLine);
    assert mask[c].Lines().Has(a[c]) && a[c] != LionLine;
    assert Fits(origin, mask[c := mask[c].WithoutLion()], a);
  }

  lemma OnlyOneRefuted(u: State, mover: Side, captured: int)
    requires Shaped(u)
    requires forall p :: 0 <= p < PIECE_COUNT ==> (IsHandLion(u, mover, p) <==> p == captured && u.mask[p].lion)
    requires 0 <= captured < PIECE_COUNT && u.mask[captured].lion
    ensures RefutedLions(u, mover) == u.mask[captured := u.mask[captured].WithoutLion()]
  {
    hide IsHandLion;
  }

  /** The opponent's remaining candidate shares the captured piece's origin. */
  lemma RivalCandidate(s: State, m: Move, u: State) returns (d: int)
    requires Agree(s) && Custody(s) && IsPseudoLegal(s, m) && Agree(u) && Landed(s, m, u)
    requires HasLionCandidate(u, s.sideToMove.Opposite()) && HasHandLionCandidate(u, s.sideToMove)
    ensures 0 <= s.board[m.to] < PIECE_COUNT && u.mask[s.board[m.to]].lion
    ensures 0 <= d < PIECE_COUNT && d != s.board[m.to] && u.mask[d].lion && u.origin[d] == u.origin[s.board[m.to]]
  {
    CustodyButForCaptured(s, m, u);
    hide IsHandLion, CanReach;
    d :| 0 <= d < PIECE_COUNT && u.owner[d] == s.sideToMove.Opposite() && u.mask[d].lion;
  }

  /** Refuting the one captured candidate and propagating again cannot contradict. */
  lemma RefutationPropagates(u: State, mover: Side, captured: int, d: int) returns (v: State)
    requires Coherent(u) && HasLionCandidate(u, mover.Opposite())
    requires forall p :: 0 <= p < PIECE_COUNT ==> (IsHandLion(u, mover, p) <==> p == captured && u.mask[p].lion)
    requires 0 <= captured < PIECE_COUNT && u.mask[captured].lion
    requires 0 <= d < PIECE_COUNT && d != captured && u.mask[d].lion && u.origin[d] == u.origin[captured]
    ensures Resolved(u, mover) == Some(v) && Coherent(v)
    ensures v == u.(mask := v.mask)
    ensures forall p :: 0 <= p < PIECE_COUNT && v.mask[p].lion ==> u.mask[p].lion && p != captured
  {
    hide IsHandLion, Satisfiable, Closure, HasLionCandidate;
    LionElsewhere(u.origin, u.mask, captured, d);
    OnlyOneRefuted(u, mover, captured);
    hide Closed, RefutedLions;
    var refuted := u.(mask := RefutedLions(u, mover));
    RefutedStaysAgreed(u, refuted);
    hide Agree;
    v := refuted.(mask := Closure(refuted.origin, refuted.mask));
    ClosureIsCoherent(refuted);
  }

  /** With another Lion candidate left to the opponent, the captured piece can drop Lion. */
  lemma CapturedIsNoLion(s: State, m: Move, u: State) returns (v: State)
    requires Coherent(s) && Custody(s) && IsPseudoLegal(s, m) && Coherent(u) && Landed(s, m, u)
    requires HasLionCandidate(u, s.sideToMove.Opposite()) && HasHandLionCandidate(u, s.sideToMove)
    ensures Resolved(u, s.sideToMove) == Some(v)
    ensures Coherent(v) && Landed(s, m, v) && Custody(v)
  {
    CustodyButForCaptured(s, m, u);
    var d := RivalCandidate(s, m, u);
    hide Closed, CanReach, IsHandLion, Resolved, HasLionCandidate, HasHandLionCandidate;
    v := RefutationPropagates(u, s.sideToMove, s.board[m.to], d);
    LionsOnlyLeave(s, m, u, v);
  }

  lemma RefutedStaysAgreed(u: State, refuted: State)
    requires Agree(u) && FormsSettled(u) && |refuted.mask| == PIECE_COUNT && refuted == u.(mask := refuted.mask)
    requires forall p :: 0 <= p < PIECE_COUNT ==> refuted.mask[p] in {u.mask[p], u.mask[p].WithoutLion()}
    ensures Agree(refuted) && FormsSettled(refuted)
  {
  }

  lemma LionsOnlyLeave(s: State, m: Move, u: State, v: State)
    requires Agree(s) && Custody(s) && IsPseudoLegal(s, m) && Agree(u) && Landed(s, m, u)
    requires |v.mask| == PIECE_COUNT && v == u.(mask := v.mask)
    requires forall p :: 0 <= p < PIECE_COUNT && v.mask[p].lion ==> u.mask[p].lion && p != s.board[m.to]
    ensures Landed(s, m, v) && Custody(v)
  {
    CustodyButForCaptured(s, m, u);
    hide CanReach, IsHandPosition;
  }

  // ---------------------------------------------------------------- every accepted transition

  lemma ResolvedKeeps(u: State, mover: Side, v: State)
    requires Coherent(u) && Resolved(u, mover) == Some(v)
    ensures Coherent(v) && v == u.(mask := v.mask)
    ensures forall p :: 0 <= p < PIECE_COUNT && v.mask[p].lion ==> u.mask[p].lion
  {
    if v != u {
      var refuted := u.(mask := RefutedLions(u, mover));
      hide IsHandLion, HasLionCandidate, Closed, Satisfiable, Closure;
      RefutedStaysAgreed(u, refuted);
      ClosureIsCoherent(refuted);
    }
  }

  /** Whatever the position, a settled move stays coherent and creates no Lion candidate. */
  lemma SettledKeeps(s: State, m: Move, v: State)
    requires Coherent(s) && Settled(s, m) == Some(v)
    ensures IsPseudoLegal(s, m) && Coherent(v) && Landed(s, m, v)
  {
    OnlyPseudoLegalMoves(s, m);
    FirstPropagationLands(s, m);
    hide FirstPropagation, IsPseudoLegal, Resolved, Coherent;
    if m.from < BOARD_SIZE {
      ResolvedKeeps(FirstPropagation(s, m).value, s.sideToMove, v);
    }
  }

  /** Every accepted transition keeps placement, quotas at their fixed point, forms and the hash. */
  lemma ApplyKeepsSound(s: State, m: Move, t: State)
    requires Coherent(s) && Apply(s, m) == Some(t)
    ensures IsPseudoLegal(s, m) && Sound(t) && Follows(s, m, t)
    ensures t.sideToMove == s.sideToMove.Opposite() && t.turn == (s.turn + 1) % TURN_MODULUS
  {
    hide Settled, Judged, IsPseudoLegal, Closed;
    var v := Settled(s, m).value;
    SettledKeeps(s, m, v);
    FinishedFields(v, s.sideToMove);
    hide Finished;
  }

  lemma FinishedFields(v: State, mover: Side)
    requires Shaped(v)
    ensures var t := Finished(v, mover);
            && t.board == v.board && t.pos == v.pos && t.owner == v.owner && t.mask == v.mask && t.origin == v.origin
            && t.sideToMove == mover.Opposite() && t.turn == (v.turn + 1) % TURN_MODULUS && t.hash == ZobristHash(t)
  {
    hide HasSurvivingTry, HasHandLionCandidate;
  }

  // ---------------------------------------------------------------- any agreeing position

  lemma PropagatedIsLawful(u: State, w: State)
    requires Agree(u) && Propagated(u) == Some(w)
    ensures Agree(w) && Closed(w.origin, w.mask) && w == u.(mask := w.mask)
  {
    hide Satisfiable, Closure, Closed;
    ClosureIsClosed(u.origin, u.mask);
  }

  lemma ResolvedIsLawful(u: State, mover: Side, v: State)
    requires Agree(u) && Closed(u.origin, u.mask) && Resolved(u, mover) == Some(v)
    ensures Agree(v) && Closed(v.origin, v.mask) && v == u.(mask := v.mask)
  {
    hide Agree, Closed, Propagated, HasLionCandidate, HasHandLionCandidate, IsHandLion;
    AgreeIsShaped(u);
    if v != u {
      var refuted := u.(mask := RefutedLions(u, mover));
      SamePlacementAgrees(u, refuted);
      PropagatedIsLawful(refuted, v);
    }
  }

  lemma AgreeIsShaped(s: State)
    requires Agree(s)
    ensures Shaped(s)
  {
  }

  lemma SamePlacementAgrees(s: State, t: State)
    requires Agree(s) && t.board == s.board && t.pos == s.pos
    requires |t.mask| == |t.owner| == |t.origin| == PIECE_COUNT
    ensures Agree(t)
  {
  }

  lemma SettledIsLawful(s: State, m: Move, v: State)
    requires Agree(s) && Settled(s, m) == Some(v)
    ensures IsPseudoLegal(s, m) && Agree(v) && Closed(v.origin, v.mask)
    ensures v.turn == s.turn && v.terminal == s.terminal && v.winner == s.winner && v.sideToMove == s.sideToMove
  {
    hide Closed, Propagated, Resolved, CanReach, Moved;
    OnlyPseudoLegalMoves(s, m);
    MoveTakesEffect(s, m);
    var u := FirstPropagation(s, m).value;
    PropagatedIsLawful(Moved(s, m).value, u);
    if m.from < BOARD_SIZE {
      ResolvedIsLawful(u, s.sideToMove, v);
    }
  }

  /** From any agreeing position an accepted move leads to an agreeing one at the fixed point, with a
      current hash; nothing is asked of masks, forms, custody or turn. */
  lemma ApplyKeepsLawful(s: State, m: Move, t: State)
    requires Agree(s) && Apply(s, m) == Some(t)
    ensures IsPseudoLegal(s, m) && Lawful(t) && Closed(t.origin, t.mask) && t.hash == ZobristHash(t)
    ensures t.sideToMove == s.sideToMove.Opposite() && t.turn == (s.turn + 1) % TURN_MODULUS
    ensures t.terminal == Ongoing ==> t.turn < TURN_LIMIT
  {
    hide Settled, Agree, IsPseudoLegal, HasSurvivingTry, HasHandLionCandidate, Satisfiable;
    AgreeIsShaped(s);
    var v := Settled(s, m).value;
    SettledIsLawful(s, m, v);
    AgreeIsShaped(v);
    FinishedFields(v, s.sideToMove);
    SamePlacementAgrees(v, t);
  }
}
