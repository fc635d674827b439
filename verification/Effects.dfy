/** What a move does, told without the phases that do it: the forms of every piece, where everything stands,
    which identities remain possible, and the verdict.
 */
module Effects {
  import opened Animals
  import opened Propagation
  import opened Propagators
  import opened States
  import opened Transition
  import opened Rules
  import opened MoveGeneration
  import opened Invariants
  import MT = MoveTables

  // ---------------------------------------------------------------- forms and placement

  /** The piece that moved keeps the forms able to make the step. A Chick that reaches the far rank is a Hen
      from then on. */
  lemma MoverFormByForm(s: State, m: Move)
    requires Shaped(s) && Moved(s, m).Some?
    ensures m.Valid() && |Moved(s, m).value.mask| == 8
    ensures m.from >= 12 ==> Moved(s, m).value.mask[m.piece] == s.mask[m.piece]
    ensures m.from < 12 ==>
              var before, after := s.mask[m.piece], Moved(s, m).value.mask[m.piece];
              var ahead := if s.sideToMove.South? then m.from / 3 - m.to / 3 else m.to / 3 - m.from / 3;
              var aside := if m.from % 3 < m.to % 3 then m.to % 3 - m.from % 3 else m.from % 3 - m.to % 3;
              var wasChick := before.chick && ahead == 1 && aside == 0;
              var wasHen := before.hen && -1 <= ahead <= 1 && aside <= 1 && m.from != m.to
                            && !(ahead == -1 && aside == 1);
              var far := if s.sideToMove.South? then m.to in {0, 1, 2} else m.to in {9, 10, 11};
              && (after.chick <==> wasChick && !far)
              && (after.hen <==> wasHen || (wasChick && far))
              && (after.giraffe <==>
                    before.giraffe && ((ahead in {-1, 1} && aside == 0) || (ahead == 0 && aside == 1)))
              && (after.elephant <==> before.elephant && ahead in {-1, 1} && aside == 1)
              && (after.lion <==> before.lion && -1 <= ahead <= 1 && aside <= 1 && m.from != m.to)
  {
    if m.from < 12 {
      MT.StepsInWords(s.sideToMove, m.from, m.to);
    }
    hide Movers, LowestFreeSlot;
  }

  /** A captured piece is no Hen any more but may be a Chick if it could be either; nothing else changes. */
  lemma OthersFormByForm(s: State, m: Move, p: int)
    requires Shaped(s) && Moved(s, m).Some? && 0 <= p < 8 && p != m.piece
    ensures m.Valid() && |Moved(s, m).value.mask| == 8
    ensures var before, after := s.mask[p], Moved(s, m).value.mask[p];
            && (p != s.board[m.to] ==> after == before)
            && (p == s.board[m.to] ==>
                  && !after.hen && (after.chick <==> before.chick || before.hen)
                  && (after.giraffe <==> before.giraffe) && (after.elephant <==> before.elephant)
                  && (after.lion <==> before.lion))
  {
    hide Movers, LowestFreeSlot, IsBackRank;
  }

  lemma {:induction false} SlotIsLowest(pos: seq<int>, excluded: int, slot: int)
    requires 0 <= slot <= LowestFreeSlot(pos, excluded, slot)
    ensures !SlotUsed(pos, excluded, LowestFreeSlot(pos, excluded, slot))
    ensures forall x :: slot <= x < LowestFreeSlot(pos, excluded, slot) ==> SlotUsed(pos, excluded, x)
    decreases SOURCE_COUNT - slot
  {
    if slot < SOURCE_COUNT && SlotUsed(pos, excluded, slot) {
      LowestFromOn(pos, excluded, slot + 1);
      SlotIsLowest(pos, excluded, slot + 1);
    }
  }

  lemma {:induction false} LowestFromOn(pos: seq<int>, excluded: int, slot: int)
    ensures LowestFreeSlot(pos, excluded, slot) == -1 || LowestFreeSlot(pos, excluded, slot) >= slot
    decreases SOURCE_COUNT - slot
  {
    if slot < SOURCE_COUNT {
      LowestFromOn(pos, excluded, slot + 1);
    }
  }

  /** The slot of a captured piece: the first in the hand that no other piece has. */
  lemma CaptorsSlot(pos: seq<int>, captured: int)
    requires |pos| == 8 && 0 <= captured < 8
    ensures var slot := LowestFreeSlot(pos, captured, FIRST_HAND_SLOT);
            var taken := set p | 0 <= p < 8 && p != captured :: pos[p];
            12 <= slot < 20 && slot !in taken && forall x :: 12 <= x < slot ==> x in taken
  {
    FreeSlotExists(pos, captured);
    SlotIsLowest(pos, captured, FIRST_HAND_SLOT);
    hide LowestFreeSlot;
    var taken := set p | 0 <= p < 8 && p != captured :: pos[p];
    forall x
      ensures SlotUsed(pos, captured, x) <==> x in taken
    {
    }
  }

  /** Where everything stands: the piece on its destination, a captured piece its captor's and in the first
      hand slot no other piece has, the source square empty, all else as it was. */
  lemma PlacementInWords(s: State, m: Move)
    requires Agree(s) && Moved(s, m).Some?
    ensures m.Valid() && Shaped(Moved(s, m).value)
    ensures var t, captured := Moved(s, m).value, s.board[m.to];
            var taken := set p | 0 <= p < 8 && p != captured :: s.pos[p];
            && (forall p :: 0 <= p < 8 ==> t.owner[p] == if p == captured then s.sideToMove else s.owner[p])
            && (forall p :: 0 <= p < 8 && p != captured ==> t.pos[p] == if p == m.piece then m.to else s.pos[p])
            && (captured >= 0 ==>
                  && t.pos[captured] >= 12 && t.pos[captured] !in taken
                  && forall x :: 12 <= x < t.pos[captured] ==> x in taken)
            && (forall x :: 0 <= x < 12 ==>
                  t.board[x] == if x == m.to then m.piece else if x == m.from then -1 else s.board[x])
            && t.origin == s.origin
  {
    MovedIsShaped(s, m);
    var captured := s.board[m.to];
    if captured >= 0 {
      FreeSlotExists(s.pos, captured);
      CaptorsSlot(s.pos, captured);
    }
    hide Movers, LowestFreeSlot, SlotUsed, IsBackRank;
  }

  // ---------------------------------------------------------------- identities

  /** Whether a side still owns a piece that some complete assignment makes the Lion. */
  ghost predicate MayOwnLion(s: State, side: Side)
  {
    exists p, a ::
      0 <= p < |s.owner| && s.owner[p] == side && Fits(s.origin, s.mask, a) && p < |a| && a[p] == LionLine
  }

  /** No piece in the hand of a side is the Lion. */
  ghost predicate NoLionHeld(s: State, side: Side, a: Assignment)
  {
    forall p :: 0 <= p < |s.owner| && p < |a| && p < |s.pos| && s.owner[p] == side && s.pos[p] >= 12 ==>
      a[p] != LionLine
  }

  /** Captured-Lion resolution, in assignments: if the opponent may still own the Lion, those that put a Lion in
      the mover's hand are struck out, and it fails exactly when no other is left. */
  lemma ResolutionByAssignments(u: State, mover: Side)
    requires Shaped(u)
    ensures var live := HasLionCandidate(u, mover.Opposite());
            && (Resolved(u, mover).None? ==>
                  live && forall a :: Fits(u.origin, u.mask, a) ==> !NoLionHeld(u, mover, a))
            && (Resolved(u, mover).Some? ==>
                  var v := Resolved(u, mover).value;
                  && v == u.(mask := v.mask)
                  && forall a :: Fits(v.origin, v.mask, a) <==>
                       Fits(u.origin, u.mask, a) && (live ==> NoLionHeld(u, mover, a)))
  {
    hide HasLionCandidate, HasHandLionCandidate, IsHandLion, Closure, RefutedLions, NoLionHeld, Fits;
    var refuted := RefutedLions(u, mover);
    forall a
      ensures Fits(u.origin, refuted, a) <==> Fits(u.origin, u.mask, a) && NoLionHeld(u, mover, a)
      ensures Fits(u.origin, Closure(u.origin, refuted), a) <==> Fits(u.origin, refuted, a)
    {
      RefutedAssignments(u, mover, a);
      ClosureKeepsAssignments(u.origin, refuted, a);
    }
    if !HasHandLionCandidate(u, mover) {
      NothingRefuted(u, mover);
    }
    if p :| 0 <= p < PIECE_COUNT && IsHandLion(u, mover, p) && u.mask[p].WithoutLion().IsEmpty() {
      EmptiedPiece(u, mover, p);
    }
  }

  lemma RefutedAssignments(u: State, mover: Side, a: Assignment)
    requires Shaped(u)
    ensures Fits(u.origin, RefutedLions(u, mover), a) <==> Fits(u.origin, u.mask, a) && NoLionHeld(u, mover, a)
  {
  }

  lemma EmptiedPiece(u: State, mover: Side, p: int)
    requires Shaped(u) && 0 <= p < PIECE_COUNT && IsHandLion(u, mover, p) && u.mask[p].WithoutLion().IsEmpty()
    ensures !Satisfiable(u.origin, RefutedLions(u, mover))
  {
    EmptyMaskContradicts(u.origin, RefutedLions(u, mover), p);
  }

  /** The assignments a move leaves: those of the moved pieces' forms, and after a board move that leaves the
      opponent a possible Lion only those that put no Lion in the mover's hand. */
  ghost predicate Possible(s: State, m: Move, a: Assignment)
  {
    && Shaped(s) && Moved(s, m).Some?
    && var w := Moved(s, m).value;
       && Fits(w.origin, w.mask, a)
       && (m.from < 12 && MayOwnLion(w, s.sideToMove.Opposite()) ==> NoLionHeld(w, s.sideToMove, a))
  }

  lemma CandidateByAssignments(w: State, side: Side)
    requires Shaped(w)
    ensures var u := w.(mask := Closure(w.origin, w.mask)); HasLionCandidate(u, side) <==> MayOwnLion(w, side)
  {
    hide Fits, Closure;
    var u := w.(mask := Closure(w.origin, w.mask));
    forall p | 0 <= p < PIECE_COUNT
      ensures u.mask[p].lion <==> Supports(w.origin, w.mask, p, LionLine)
    {
      ClosureKeepsExactlySupported(w.origin, w.mask, p, LionLine);
    }
    if HasLionCandidate(u, side) {
      var p :| 0 <= p < PIECE_COUNT && u.owner[p] == side && u.mask[p].lion;
      var a := WitnessOf(w.origin, w.mask, p, LionLine);
    }
    if p, a :| 0 <= p < |w.owner| && w.owner[p] == side && Fits(w.origin, w.mask, a) && p < |a| && a[p] == LionLine {
      assert Supports(w.origin, w.mask, p, LionLine);
    }
  }

  lemma WitnessOf(origin: seq<Side>, mask: seq<Mask>, p: int, x: Lineage) returns (a: Assignment)
    requires Supports(origin, mask, p, x)
    ensures Fits(origin, mask, a) && |a| == PIECE_COUNT && a[p] == x
  {
    a :| Fits(origin, mask, a) && a[p] == x;
  }

  /** The settled masks, in assignments. */
  lemma SettledByAssignments(s: State, m: Move)
    requires Shaped(s) && Moved(s, m).Some?
    ensures Settled(s, m).None? ==> forall a :: !Possible(s, m, a)
    ensures Settled(s, m).Some? ==>
              var v := Settled(s, m).value;
              && Satisfiable(v.origin, v.mask) && forall a :: Fits(v.origin, v.mask, a) <==> Possible(s, m, a)
  {
    hide Fits, Closure, Moved, Resolved, NoLionHeld, MayOwnLion, HasLionCandidate;
    MovedIsShaped(s, m);
    var w := Moved(s, m).value;
    forall a
      ensures Fits(w.origin, Closure(w.origin, w.mask), a) <==> Fits(w.origin, w.mask, a)
    {
      ClosureKeepsAssignments(w.origin, w.mask, a);
    }
    if Satisfiable(w.origin, w.mask) {
      var u := w.(mask := Closure(w.origin, w.mask));
      ClosureIsClosed(w.origin, w.mask);
      ResolvedSatisfiable(u, s.sideToMove);
      ResolutionByAssignments(u, s.sideToMove);
      CandidateByAssignments(w, s.sideToMove.Opposite());
      forall a
        ensures NoLionHeld(u, s.sideToMove, a) <==> NoLionHeld(w, s.sideToMove, a)
      {
        SameHeld(u, w, s.sideToMove, a);
      }
    }
  }

  lemma SameHeld(u: State, w: State, side: Side, a: Assignment)
    requires u.owner == w.owner && u.pos == w.pos
    ensures NoLionHeld(u, side, a) <==> NoLionHeld(w, side, a)
  {
  }

  lemma ResolvedSatisfiable(u: State, mover: Side)
    requires Shaped(u) && Satisfiable(u.origin, u.mask)
    ensures Resolved(u, mover).Some? ==>
              var v := Resolved(u, mover).value; Satisfiable(v.origin, v.mask)
  {
    hide HasLionCandidate, HasHandLionCandidate, IsHandLion, RefutedLions, Closure, Satisfiable;
    var refuted := RefutedLions(u, mover);
    if Satisfiable(u.origin, refuted) {
      ClosureIsClosed(u.origin, refuted);
    }
  }

  /** A move that can be made on the board is accepted exactly when it leaves some assignment possible. */
  lemma AcceptedByAssignments(s: State, m: Move)
    requires Shaped(s)
    ensures Apply(s, m).Some? <==> exists a :: Possible(s, m, a)
  {
    hide Fits, Finished, Moved, Possible;
    if Moved(s, m).Some? {
      SettledByAssignments(s, m);
      if Settled(s, m).Some? {
        var v := Settled(s, m).value;
        var a :| Fits(v.origin, v.mask, a);
      }
    } else {
      forall a
        ensures !Possible(s, m, a)
      {
        if Possible(s, m, a) {
          PossibleIsMoved(s, m, a);
        }
      }
    }
  }

  lemma PossibleIsMoved(s: State, m: Move, a: Assignment)
    requires Possible(s, m, a)
    ensures Moved(s, m).Some?
  {
    hide Fits, Moved;
  }

  /** One mask comes from another by striking lineages. */
  ghost predicate Struck(m: Mask, n: Mask)
  {
    exists ls: Lineages :: n == m.Keep(ls)
  }

  lemma StruckAgain(m: Mask, n: Mask, k: Mask)
    requires Struck(m, n) && (Struck(n, k) || k == n.WithoutLion())
    ensures Struck(m, k)
  {
    var x: Lineages :| n == m.Keep(x);
    if k == n.WithoutLion() {
      assert k == m.Keep(x.(l := false));
    } else {
      var y: Lineages :| k == n.Keep(y);
      assert k == m.Keep(Lineages(x.ch && y.ch, x.g && y.g, x.e && y.e, x.l && y.l));
    }
  }

  lemma ClosureStrikes(origin: seq<Side>, mask: seq<Mask>, p: int)
    requires |mask| == PIECE_COUNT && 0 <= p < PIECE_COUNT
    ensures Struck(mask[p], Closure(origin, mask)[p])
  {
    hide Supports;
    assert Closure(origin, mask)[p] == mask[p].Keep(SupportOf(origin, mask, p));
  }

  /** From the moved masks to the settled ones lineages are struck and nothing else. */
  lemma SettlingStrikes(s: State, m: Move, p: int)
    requires Shaped(s) && Settled(s, m).Some? && 0 <= p < PIECE_COUNT
    ensures Moved(s, m).Some? && Shaped(Moved(s, m).value) && Shaped(Settled(s, m).value)
    ensures Settled(s, m).value == Moved(s, m).value.(mask := Settled(s, m).value.mask)
    ensures Struck(Moved(s, m).value.mask[p], Settled(s, m).value.mask[p])
  {
    hide Moved, Struck, Closure, Satisfiable, HasLionCandidate, HasHandLionCandidate, IsHandLion;
    MovedIsShaped(s, m);
    SettledIsShaped(s, m);
    var w, v := Moved(s, m).value, Settled(s, m).value;
    ClosureStrikes(w.origin, w.mask, p);
    var u := w.(mask := Closure(w.origin, w.mask));
    if v != u {
      var refuted := RefutedLions(u, s.sideToMove);
      if refuted[p] != u.mask[p] {
        StruckAgain(w.mask[p], u.mask[p], refuted[p]);
      }
      ClosureStrikes(u.origin, refuted, p);
      StruckAgain(w.mask[p], refuted[p], v.mask[p]);
    }
  }

  lemma ExactlyStruck(m: Mask, n: Mask, ls: Lineages)
    requires Struck(m, n) && n.Lines() == ls
    ensures n == m.Keep(ls)
  {
    var x: Lineages :| n == m.Keep(x);
  }

  /** Form by form: after a move a piece keeps a form it had when it was moved exactly when some possible
      assignment gives it that form's lineage. */
  lemma FormsByAssignments(s: State, m: Move, t: State, p: int)
    requires Agree(s) && Apply(s, m) == Some(t) && 0 <= p < PIECE_COUNT
    ensures Moved(s, m).Some? && Shaped(Moved(s, m).value) && Shaped(t)
    ensures var before, after := Moved(s, m).value.mask[p], t.mask[p];
            && (after.chick <==> before.chick && exists a :: Possible(s, m, a) && a[p] == ChickLine)
            && (after.hen <==> before.hen && exists a :: Possible(s, m, a) && a[p] == ChickLine)
            && (after.giraffe <==> before.giraffe && exists a :: Possible(s, m, a) && a[p] == GiraffeLine)
            && (after.elephant <==> before.elephant && exists a :: Possible(s, m, a) && a[p] == ElephantLine)
            && (after.lion <==> before.lion && exists a :: Possible(s, m, a) && a[p] == LionLine)
  {
    hide Settled, Finished, Moved, Fits, Possible, IsPseudoLegal, Struck;
    AgreeIsShaped(s);
    ApplyKeepsLawful(s, m, t);
    SettlingStrikes(s, m, p);
    SettledByAssignments(s, m);
    FinishedFields(Settled(s, m).value, s.sideToMove);
    SupportsOfClosed(t.origin, t.mask, p);
    var support := SupportOf(t.origin, t.mask, p);
    ExactlyStruck(Moved(s, m).value.mask[p], t.mask[p], support);
    assert support.ch == Supports(t.origin, t.mask, p, ChickLine)
        && support.g == Supports(t.origin, t.mask, p, GiraffeLine)
        && support.e == Supports(t.origin, t.mask, p, ElephantLine)
        && support.l == Supports(t.origin, t.mask, p, LionLine);
  }

  lemma SupportsOfClosed(origin: seq<Side>, mask: seq<Mask>, p: int)
    requires Closed(origin, mask) && 0 <= p < PIECE_COUNT
    ensures mask[p].Lines() == SupportOf(origin, mask, p)
  {
    hide Supports, Satisfiable;
    ClosureKeepsExactlySupported(origin, mask, p, ChickLine);
    ClosureKeepsExactlySupported(origin, mask, p, GiraffeLine);
    ClosureKeepsExactlySupported(origin, mask, p, ElephantLine);
    ClosureKeepsExactlySupported(origin, mask, p, LionLine);
    ClosedIsFixedPoint(origin, mask);
  }

  lemma MadeMoveIsValid(s: State, m: Move)
    requires Shaped(s) && Settled(s, m).Some?
    ensures m.Valid() && Moved(s, m).Some?
  {
    hide Resolved, Satisfiable, LowestFreeSlot, Movers;
  }

  /** Whatever is known of the piece, it stands on the far rank as no Chick; a certain Chick is a certain Hen. */
  lemma FarRankMakesHen(s: State, m: Move, t: State)
    requires Agree(s) && Apply(s, m) == Some(t) && m.from < 12
    requires if s.sideToMove.South? then m.to in {0, 1, 2} else m.to in {9, 10, 11}
    ensures m.Valid() && Shaped(t) && t.pos[m.piece] == m.to && !t.mask[m.piece].chick
    ensures s.mask[m.piece] == Mask(true, false, false, false, false) ==>
              t.mask[m.piece] == Mask(false, false, false, false, true)
  {
    hide Settled, Finished, Moved, Possible, IsPseudoLegal, Struck, Satisfiable;
    AgreeIsShaped(s);
    ApplyKeepsLawful(s, m, t);
    MadeMoveIsValid(s, m);
    MoverFormByForm(s, m);
    FormsByAssignments(s, m, t, m.piece);
    SettlingStrikes(s, m, m.piece);
    FinishedFields(Settled(s, m).value, s.sideToMove);
    PlacementInWords(s, m);
    if t.mask[m.piece].IsEmpty() {
      EmptyMaskContradicts(t.origin, t.mask, m.piece);
    }
  }

  // ---------------------------------------------------------------- the verdict

  /** Who has won after an accepted move: first the player now to move, by a possible Lion that stands on the far
      rank; then the mover, by a possible Lion in hand; otherwise the turn limit draws. */
  lemma VerdictInWords(s: State, m: Move, t: State)
    requires Shaped(s) && Apply(s, m) == Some(t)
    ensures s.terminal == Ongoing && t.turn == (s.turn + 1) % 65536
    ensures t.sideToMove == if s.sideToMove.South? then North else South
    ensures Shaped(t)
    ensures var tried := exists p :: 0 <= p < 8 && t.owner[p] == t.sideToMove && t.mask[p].lion
                           && (if t.sideToMove.South? then t.pos[p] in {0, 1, 2} else t.pos[p] in {9, 10, 11});
            var caught := exists p :: 0 <= p < 8 && t.owner[p] == s.sideToMove && t.mask[p].lion && t.pos[p] >= 12;
            && (t.terminal == Try <==> tried)
            && (t.terminal == Catch <==> caught && !tried)
            && (t.terminal == Draw <==> t.turn >= 256 && !caught && !tried)
            && t.terminal != Illegal
            && (tried ==> t.winner == if t.sideToMove.South? then 0 else 1)
            && (caught && !tried ==> t.winner == if s.sideToMove.South? then 0 else 1)
            && (t.terminal == Draw ==> t.winner == -1)
            && (t.terminal == Ongoing ==> t.winner == s.winner)
  {
    hide Settled, IsTryCandidate, IsHandLion;
    ApplyVerdict(s, m, t);
    TryInWords(t, t.sideToMove);
    HeldInWords(t, s.sideToMove);
  }

  lemma ApplyVerdict(s: State, m: Move, t: State)
    requires Shaped(s) && Apply(s, m) == Some(t)
    ensures s.terminal == Ongoing && t.turn == (s.turn + 1) % 65536 && Shaped(t)
    ensures t.sideToMove == s.sideToMove.Opposite()
    ensures var tried, caught := HasSurvivingTry(t, t.sideToMove), HasHandLionCandidate(t, s.sideToMove);
            && t.terminal == (if tried then Try else if caught then Catch else if t.turn >= 256 then Draw else Ongoing)
            && t.winner == (if tried then SideIndex(t.sideToMove) else if caught then SideIndex(s.sideToMove)
                            else if t.turn >= 256 then -1 else s.winner)
  {
    hide Moved, IsTryCandidate, IsHandLion, Satisfiable, HasLionCandidate;
    var v := Settled(s, m).value;
    SettledIsShaped(s, m);
    SettlingStrikes(s, m, 0);
    MovedKeepsRecord(s, m);
    hide Settled;
    FinishedFields(v, s.sideToMove);
    var passed := Passed(v, s.sideToMove);
    forall p, side | 0 <= p < PIECE_COUNT
      ensures IsTryCandidate(passed, side, p) == IsTryCandidate(t, side, p)
      ensures IsHandLion(passed, side, p) == IsHandLion(t, side, p)
    {
      SamePieceSameCandidate(passed, t, side, p);
    }
  }

  lemma MovedKeepsRecord(s: State, m: Move)
    requires Shaped(s) && Moved(s, m).Some?
    ensures s.terminal == Ongoing
    ensures var w := Moved(s, m).value;
            w.turn == s.turn && w.terminal == s.terminal && w.winner == s.winner && w.sideToMove == s.sideToMove
  {
    hide LowestFreeSlot, Movers;
  }

  lemma SamePieceSameCandidate(s: State, t: State, side: Side, p: int)
    requires Shaped(s) && Shaped(t) && 0 <= p < PIECE_COUNT
    requires s.pos == t.pos && s.owner == t.owner && s.mask == t.mask
    ensures IsTryCandidate(s, side, p) == IsTryCandidate(t, side, p)
    ensures IsHandLion(s, side, p) == IsHandLion(t, side, p)
  {
  }

  lemma TryInWords(t: State, side: Side)
    requires Shaped(t)
    ensures HasSurvivingTry(t, side) <==>
              exists p :: 0 <= p < 8 && t.owner[p] == side && t.mask[p].lion
                && (if side.South? then t.pos[p] in {0, 1, 2} else t.pos[p] in {9, 10, 11})
  {
    forall p | 0 <= p < 8
      ensures IsTryCandidate(t, side, p) <==>
                t.owner[p] == side && t.mask[p].lion
                && (if side.South? then t.pos[p] in {0, 1, 2} else t.pos[p] in {9, 10, 11})
    {
    }
    hide IsTryCandidate;
  }

  lemma HeldInWords(t: State, side: Side)
    requires Shaped(t)
    ensures HasHandLionCandidate(t, side) <==>
              exists p :: 0 <= p < 8 && t.owner[p] == side && t.mask[p].lion && t.pos[p] >= 12
  {
    forall p | 0 <= p < 8
      ensures IsHandLion(t, side, p) <==> t.owner[p] == side && t.mask[p].lion && t.pos[p] >= 12
    {
    }
    hide IsHandLion;
  }
}
