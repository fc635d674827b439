/** Relabelled and rotated positions play alike.

    An isomorphism renames pieces, may rename hand slots, and may turn the board by 180 degrees while
    exchanging the sides. One theorem about the whole transition serves both the canonical key, which
    forgets labels and slots, and the protocol boundary, which shows the player to move as South.
 */
module Symmetry {
  import opened Animals
  import opened Propagation
  import opened States
  import opened Transition
  import opened MoveGeneration
  import opened Invariants

  /** A renaming of the pieces, with its inverse, and whether the board is turned. */
  datatype Iso = Iso(to: seq<int>, back: seq<int>, flip: bool) {
    ghost predicate Valid() {
      && |to| == |back| == PIECE_COUNT
      && (forall p :: 0 <= p < PIECE_COUNT ==> 0 <= to[p] < PIECE_COUNT && back[to[p]] == p)
      && (forall q :: 0 <= q < PIECE_COUNT ==> 0 <= back[q] < PIECE_COUNT && to[back[q]] == q)
    }

    function Square(x: int): int {
      if flip && IsBoardSquare(x) then BOARD_SIZE - 1 - x else x
    }

    function Seat(side: Side): Side {
      if flip then side.Opposite() else side
    }

    function Winner(w: int): int {
      if flip && w in {0, 1} then 1 - w else w
    }

    function Inverse(): Iso {
      Iso(back, to, flip)
    }
  }

  /** What the isomorphism says of one piece. */
  ghost predicate PieceMatches(i: Iso, s: State, t: State, p: int)
    requires i.Valid() && Shaped(s) && Shaped(t) && 0 <= p < PIECE_COUNT
  {
    var q := i.to[p];
    && t.origin[q] == i.Seat(s.origin[p]) && t.owner[q] == i.Seat(s.owner[p]) && t.mask[q] == s.mask[p]
    && (IsBoardSquare(s.pos[p]) <==> IsBoardSquare(t.pos[q]))
    && (IsBoardSquare(s.pos[p]) ==> t.pos[q] == i.Square(s.pos[p]))
  }

  ghost predicate PiecesMatch(i: Iso, s: State, t: State)
  {
    i.Valid() && Shaped(s) && Shaped(t) && forall p :: 0 <= p < PIECE_COUNT ==> PieceMatches(i, s, t, p)
  }

  /** The two states describe one game situation. */
  ghost predicate Related(i: Iso, s: State, t: State)
  {
    && PiecesMatch(i, s, t) && Agree(s) && Agree(t)
    && t.sideToMove == i.Seat(s.sideToMove) && t.turn == s.turn && t.terminal == s.terminal
    && t.winner == i.Winner(s.winner)
  }

  /** The move of the second state that corresponds to a move of the first. */
  function Image(i: Iso, t: State, m: Move): Move
    requires |i.to| == PIECE_COUNT && |t.pos| == PIECE_COUNT
    requires 0 <= m.piece < PIECE_COUNT ==> 0 <= i.to[m.piece] < PIECE_COUNT
  {
    if 0 <= m.piece < PIECE_COUNT then Move(i.to[m.piece], t.pos[i.to[m.piece]], i.Square(m.to)) else NO_MOVE
  }

  // ---------------------------------------------------------------- geometry

  lemma TurnedSteps(i: Iso, side: Side, from: int, to: int)
    requires IsBoardSquare(from) && IsBoardSquare(to)
    ensures Movers(i.Seat(side), i.Square(from), i.Square(to)) == Movers(side, from, to)
    ensures IsBackRank(i.Square(to), i.Seat(side)) == IsBackRank(to, side)
  {
    assert Row(11 - from) == 3 - Row(from) && Col(11 - from) == 2 - Col(from);
    assert Row(11 - to) == 3 - Row(to) && Col(11 - to) == 2 - Col(to);
    hide Row, Col;
  }

  lemma InverseMatches(i: Iso, s: State, t: State)
    requires PiecesMatch(i, s, t)
    ensures PiecesMatch(i.Inverse(), t, s)
  {
    forall q | 0 <= q < PIECE_COUNT
      ensures PieceMatches(i.Inverse(), t, s, q)
    {
      assert PieceMatches(i, s, t, i.back[q]);
    }
  }

  lemma MatchingOccupant(i: Iso, s: State, t: State, x: int)
    requires PiecesMatch(i, s, t) && Agree(s) && Agree(t) && IsBoardSquare(x)
    ensures s.board[x] >= 0 ==> t.board[i.Square(x)] == i.to[s.board[x]]
  {
    if s.board[x] >= 0 {
      assert PieceMatches(i, s, t, s.board[x]);
    }
  }

  /** Matching pieces put matching occupants on matching squares. */
  lemma MatchingBoards(i: Iso, s: State, t: State, x: int)
    requires PiecesMatch(i, s, t) && Agree(s) && Agree(t) && IsBoardSquare(x)
    ensures t.board[i.Square(x)] == if s.board[x] < 0 then EMPTY_SQUARE else i.to[s.board[x]]
  {
    MatchingOccupant(i, s, t, x);
    InverseMatches(i, s, t);
    MatchingOccupant(i.Inverse(), t, s, i.Square(x));
  }

  // ---------------------------------------------------------------- propagation

  function Carried(i: Iso, a: Assignment): (b: Assignment)
    requires |i.back| == |a| == PIECE_COUNT
    requires forall q :: 0 <= q < PIECE_COUNT ==> 0 <= i.back[q] < PIECE_COUNT
    ensures |b| == PIECE_COUNT
  {
    seq(PIECE_COUNT, q requires 0 <= q < PIECE_COUNT => a[i.back[q]])
  }

  lemma CarriedFits(i: Iso, s: State, t: State, a: Assignment)
    requires PiecesMatch(i, s, t) && Fits(s.origin, s.mask, a)
    ensures Fits(t.origin, t.mask, Carried(i, a))
  {
    var b := Carried(i, a);
    forall q | 0 <= q < PIECE_COUNT
      ensures t.mask[q].Lines().Has(b[q])
    {
      assert PieceMatches(i, s, t, i.back[q]);
    }
    forall q, r | 0 <= q < r < PIECE_COUNT && t.origin[q] == t.origin[r]
      ensures b[q] != b[r]
    {
      assert PieceMatches(i, s, t, i.back[q]) && PieceMatches(i, s, t, i.back[r]);
      assert i.back[q] != i.back[r];
    }
  }

  lemma CarriedSupport(i: Iso, s: State, t: State, p: int, x: Lineage)
    requires PiecesMatch(i, s, t) && 0 <= p < PIECE_COUNT && Supports(s.origin, s.mask, p, x)
    ensures Supports(t.origin, t.mask, i.to[p], x)
  {
    var a :| Fits(s.origin, s.mask, a) && a[p] == x;
    CarriedFits(i, s, t, a);
    assert Carried(i, a)[i.to[p]] == x;
  }

  lemma SameSupport(i: Iso, s: State, t: State, p: int)
    requires PiecesMatch(i, s, t) && 0 <= p < PIECE_COUNT
    ensures SupportOf(t.origin, t.mask, i.to[p]) == SupportOf(s.origin, s.mask, p)
  {
    InverseMatches(i, s, t);
    hide Supports;
    forall x: Lineage
      ensures Supports(t.origin, t.mask, i.to[p], x) <==> Supports(s.origin, s.mask, p, x)
    {
      if Supports(s.origin, s.mask, p, x) {
        CarriedSupport(i, s, t, p, x);
      }
      if Supports(t.origin, t.mask, i.to[p], x) {
        CarriedSupport(i.Inverse(), t, s, i.to[p], x);
      }
    }
  }

  lemma SameSatisfiable(i: Iso, s: State, t: State)
    requires PiecesMatch(i, s, t)
    ensures Satisfiable(s.origin, s.mask) <==> Satisfiable(t.origin, t.mask)
  {
    InverseMatches(i, s, t);
    if Satisfiable(s.origin, s.mask) {
      var a :| Fits(s.origin, s.mask, a);
      CarriedFits(i, s, t, a);
    }
    if Satisfiable(t.origin, t.mask) {
      var a :| Fits(t.origin, t.mask, a);
      CarriedFits(i.Inverse(), t, s, a);
    }
  }

  /** Propagation does not see names, slots or orientation. */
  lemma PropagationMatches(i: Iso, s: State, t: State)
    requires PiecesMatch(i, s, t)
    ensures Propagated(s).Some? <==> Propagated(t).Some?
    ensures Propagated(s).Some? ==> PiecesMatch(i, Propagated(s).value, Propagated(t).value)
  {
    SameSatisfiable(i, s, t);
    hide Satisfiable;
    if Propagated(s).Some? {
      var s', t' := Propagated(s).value, Propagated(t).value;
      forall p | 0 <= p < PIECE_COUNT
        ensures PieceMatches(i, s', t', p)
      {
        SameSupport(i, s, t, p);
        assert PieceMatches(i, s, t, p);
      }
    }
  }

  // ---------------------------------------------------------------- a move and its image

  lemma MatchingReach(i: Iso, s: State, t: State, m: Move)
    requires Related(i, s, t) && m.Valid()
    ensures Image(i, t, m).Valid()
    ensures s.pos[m.piece] == m.from ==> (IsPseudoLegal(s, m) <==> IsPseudoLegal(t, Image(i, t, m)))
  {
    assert PieceMatches(i, s, t, m.piece);
    MatchingBoards(i, s, t, m.to);
    if s.board[m.to] >= 0 {
      assert PieceMatches(i, s, t, s.board[m.to]);
    }
    if IsBoardSquare(s.pos[m.piece]) {
      TurnedSteps(i, s.sideToMove, s.pos[m.piece], m.to);
    }
    hide Movers, Agree;
  }

  lemma MovedMaskMatches(i: Iso, s: State, t: State, m: Move)
    requires Related(i, s, t) && m.Valid() && s.pos[m.piece] == m.from
    ensures MovedMask(t, Image(i, t, m)) == MovedMask(s, m)
  {
    assert PieceMatches(i, s, t, m.piece);
    if IsBoardSquare(m.from) {
      TurnedSteps(i, s.sideToMove, m.from, m.to);
    }
    hide Movers, Agree;
  }

  /** Movement, capture and placement match, whichever hand slots are taken. */
  lemma MovedMatches(i: Iso, s: State, t: State, m: Move, s': State, t': State)
    requires Related(i, s, t) && IsPseudoLegal(s, m) && IsPseudoLegal(t, Image(i, t, m))
    requires Agree(s') && Effect(s, m, s') && Agree(t') && Effect(t, Image(i, t, m), t')
    ensures Related(i, s', t')
  {
    MatchingBoards(i, s, t, m.to);
    MovedMaskMatches(i, s, t, m);
    hide MovedMask, CanReach;
    forall p | 0 <= p < PIECE_COUNT
      ensures PieceMatches(i, s', t', p)
    {
      assert PieceMatches(i, s, t, p);
      assert i.to[p] == i.to[m.piece] <==> p == m.piece;
    }
  }

  // ---------------------------------------------------------------- resolution and verdict

  lemma CandidatesMatch(i: Iso, s: State, t: State, side: Side)
    requires PiecesMatch(i, s, t)
    ensures HasLionCandidate(s, side) <==> HasLionCandidate(t, i.Seat(side))
    ensures HasHandLionCandidate(s, side) <==> HasHandLionCandidate(t, i.Seat(side))
    ensures HasSurvivingTry(s, side) <==> HasSurvivingTry(t, i.Seat(side))
    ensures forall p :: 0 <= p < PIECE_COUNT ==> (IsHandLion(s, side, p) <==> IsHandLion(t, i.Seat(side), i.to[p]))
  {
    forall p | 0 <= p < PIECE_COUNT
      ensures IsHandLion(s, side, p) <==> IsHandLion(t, i.Seat(side), i.to[p])
      ensures IsTryCandidate(s, side, p) <==> IsTryCandidate(t, i.Seat(side), i.to[p])
      ensures s.owner[p] == side && s.mask[p].lion <==> t.owner[i.to[p]] == i.Seat(side) && t.mask[i.to[p]].lion
    {
      assert PieceMatches(i, s, t, p);
      if IsBoardSquare(s.pos[p]) {
        TurnedSteps(i, side, s.pos[p], s.pos[p]);
      }
      hide IsBackRank, Movers;
    }
    hide IsHandLion, IsTryCandidate;
    if HasLionCandidate(t, i.Seat(side)) {
      var q :| 0 <= q < PIECE_COUNT && t.owner[q] == i.Seat(side) && t.mask[q].lion;
      assert i.to[i.back[q]] == q;
    }
    if HasHandLionCandidate(t, i.Seat(side)) {
      var q :| 0 <= q < PIECE_COUNT && IsHandLion(t, i.Seat(side), q);
      assert i.to[i.back[q]] == q;
    }
    if HasSurvivingTry(t, i.Seat(side)) {
      var q :| 0 <= q < PIECE_COUNT && IsTryCandidate(t, i.Seat(side), q);
      assert i.to[i.back[q]] == q;
    }
  }

  lemma RefutationMatches(i: Iso, s: State, t: State, mover: Side)
    requires PiecesMatch(i, s, t)
    ensures PiecesMatch(i, s.(mask := RefutedLions(s, mover)), t.(mask := RefutedLions(t, i.Seat(mover))))
    ensures (exists p :: 0 <= p < PIECE_COUNT && IsHandLion(s, mover, p) && s.mask[p].WithoutLion().IsEmpty()) <==>
            (exists q :: 0 <= q < PIECE_COUNT && IsHandLion(t, i.Seat(mover), q) && t.mask[q].WithoutLion().IsEmpty())
  {
    CandidatesMatch(i, s, t, mover);
    hide IsHandLion;
    var s', t' := s.(mask := RefutedLions(s, mover)), t.(mask := RefutedLions(t, i.Seat(mover)));
    forall p | 0 <= p < PIECE_COUNT
      ensures PieceMatches(i, s', t', p) && s.mask[p] == t.mask[i.to[p]]
    {
      assert PieceMatches(i, s, t, p);
    }
    if q :| 0 <= q < PIECE_COUNT && IsHandLion(t, i.Seat(mover), q) && t.mask[q].WithoutLion().IsEmpty() {
      var p := i.back[q];
      assert IsHandLion(s, mover, p) && s.mask[p].WithoutLion().IsEmpty();
    }
  }

  lemma ResolutionMatches(i: Iso, s: State, t: State, mover: Side)
    requires PiecesMatch(i, s, t)
    ensures Resolved(s, mover).Some? <==> Resolved(t, i.Seat(mover)).Some?
    ensures Resolved(s, mover).Some? ==> PiecesMatch(i, Resolved(s, mover).value, Resolved(t, i.Seat(mover)).value)
  {
    CandidatesMatch(i, s, t, mover);
    CandidatesMatch(i, s, t, mover.Opposite());
    RefutationMatches(i, s, t, mover);
    hide IsHandLion, HasLionCandidate, HasHandLionCandidate, RefutedLions, PiecesMatch, Propagated;
    PropagationMatches(i, s.(mask := RefutedLions(s, mover)), t.(mask := RefutedLions(t, i.Seat(mover))));
  }

  lemma ResolvedRelated(i: Iso, s: State, t: State, mover: Side)
    requires Related(i, s, t)
    ensures Resolved(s, mover).Some? <==> Resolved(t, i.Seat(mover)).Some?
    ensures Resolved(s, mover).Some? ==> Related(i, Resolved(s, mover).value, Resolved(t, i.Seat(mover)).value)
  {
    ResolutionMatches(i, s, t, mover);
    hide PiecesMatch, HasLionCandidate, HasHandLionCandidate, IsHandLion, RefutedLions, Satisfiable;
  }

  lemma JudgedMatches(i: Iso, s: State, t: State, mover: Side)
    requires PiecesMatch(i, s, t) && s.sideToMove == mover.Opposite() && t.sideToMove == i.Seat(mover.Opposite())
    requires t.turn == s.turn && t.terminal == s.terminal && t.winner == i.Winner(s.winner)
    ensures Judged(t, i.Seat(mover)).terminal == Judged(s, mover).terminal
    ensures Judged(t, i.Seat(mover)).winner == i.Winner(Judged(s, mover).winner)
  {
    CandidatesMatch(i, s, t, mover);
    CandidatesMatch(i, s, t, mover.Opposite());
    hide HasHandLionCandidate, HasSurvivingTry, PiecesMatch, IsHandLion, HasLionCandidate;
  }

  lemma RelatedIsShaped(i: Iso, s: State, t: State)
    requires Related(i, s, t)
    ensures Shaped(s) && Shaped(t) && Agree(s) && Agree(t)
  {
    hide PieceMatches;
  }

  lemma JudgedKeeps(s: State, mover: Side)
    requires |s.pos| == |s.mask| == |s.owner| == PIECE_COUNT
    ensures var t := Judged(s, mover); t == s.(terminal := t.terminal, winner := t.winner)
  {
    hide HasHandLionCandidate, HasSurvivingTry;
  }

  lemma VerdictMatches(i: Iso, s: State, t: State, mover: Side)
    requires Related(i, s, t)
    ensures Related(i, Finished(s, mover), Finished(t, i.Seat(mover)))
  {
    hide PiecesMatch, Agree, Judged;
    RelatedIsShaped(i, s, t);
    var s', t' := Passed(s, mover), Passed(t, i.Seat(mover));
    JudgedKeeps(s', mover);
    JudgedKeeps(t', i.Seat(mover));
    SamePieces(i, s, t, Finished(s, mover), Finished(t, i.Seat(mover)));
    SamePieces(i, s, t, s', t');
    assert mover.South? || mover.North?;
    JudgedMatches(i, s', t', mover);
  }

  lemma SamePieces(i: Iso, s: State, t: State, s': State, t': State)
    requires PiecesMatch(i, s, t) && Agree(s) && Agree(t)
    requires s'.board == s.board && s'.pos == s.pos && s'.owner == s.owner && s'.mask == s.mask && s'.origin == s.origin
    requires t'.board == t.board && t'.pos == t.pos && t'.owner == t.owner && t'.mask == t.mask && t'.origin == t.origin
    ensures PiecesMatch(i, s', t') && Agree(s') && Agree(t')
  {
    forall p | 0 <= p < PIECE_COUNT
      ensures PieceMatches(i, s', t', p)
    {
      assert PieceMatches(i, s, t, p);
    }
  }

  // ---------------------------------------------------------------- the bisimulation

  lemma FirstPropagationMatches(i: Iso, s: State, t: State, m: Move)
    requires Related(i, s, t) && IsPseudoLegal(s, m)
    ensures IsPseudoLegal(t, Image(i, t, m))
    ensures FirstPropagation(s, m).Some? <==> FirstPropagation(t, Image(i, t, m)).Some?
    ensures FirstPropagation(s, m).Some? ==>
              Related(i, FirstPropagation(s, m).value, FirstPropagation(t, Image(i, t, m)).value)
  {
    MatchingReach(i, s, t, m);
    MoveTakesEffect(s, m);
    MoveTakesEffect(t, Image(i, t, m));
    var s', t' := Moved(s, m).value, Moved(t, Image(i, t, m)).value;
    MovedMatches(i, s, t, m, s', t');
    PropagationMatches(i, s', t');
    hide Moved, CanReach, Satisfiable, Effect, IsPseudoLegal;
  }

  lemma SettledMatches(i: Iso, s: State, t: State, m: Move)
    requires Related(i, s, t) && IsPseudoLegal(s, m)
    ensures IsPseudoLegal(t, Image(i, t, m))
    ensures Settled(s, m).Some? <==> Settled(t, Image(i, t, m)).Some?
    ensures Settled(s, m).Some? ==> Related(i, Settled(s, m).value, Settled(t, Image(i, t, m)).value)
  {
    hide FirstPropagation, Resolved, CanReach, IsPseudoLegal;
    FirstPropagationMatches(i, s, t, m);
    SameSource(i, s, t, m);
    hide Related, Image;
    if FirstPropagation(s, m).Some? && m.from < BOARD_SIZE {
      ResolvedRelated(i, FirstPropagation(s, m).value, FirstPropagation(t, Image(i, t, m)).value, s.sideToMove);
    }
  }

  lemma SameSource(i: Iso, s: State, t: State, m: Move)
    requires Related(i, s, t) && IsPseudoLegal(s, m)
    ensures Image(i, t, m).from < BOARD_SIZE <==> m.from < BOARD_SIZE
    ensures t.sideToMove == i.Seat(s.sideToMove)
  {
    assert PieceMatches(i, s, t, m.piece);
    hide CanReach, Agree;
  }

  /** Related positions accept corresponding moves, and the same renaming relates what they lead to. */
  lemma StepMatches(i: Iso, s: State, t: State, m: Move)
    requires Related(i, s, t) && Apply(s, m).Some?
    ensures Apply(t, Image(i, t, m)).Some?
    ensures Related(i, Apply(s, m).value, Apply(t, Image(i, t, m)).value)
  {
    OnlyPseudoLegalMoves(s, m);
    SettledMatches(i, s, t, m);
    hide Settled, CanReach;
    VerdictMatches(i, Settled(s, m).value, Settled(t, Image(i, t, m)).value, s.sideToMove);
  }

  lemma InverseRelated(i: Iso, s: State, t: State)
    requires Related(i, s, t)
    ensures Related(i.Inverse(), t, s)
  {
    InverseMatches(i, s, t);
    hide PieceMatches, Agree;
  }

  lemma ImageRoundTrip(i: Iso, s: State, t: State, m: Move)
    requires Related(i, s, t) && m.Valid() && s.pos[m.piece] == m.from
    ensures Image(i, t, m).Valid() && t.pos[Image(i, t, m).piece] == Image(i, t, m).from
    ensures Image(i.Inverse(), s, Image(i, t, m)) == m
  {
    hide Agree, PieceMatches;
  }

  /** Legal moves of related positions correspond one to one. */
  lemma LegalMovesMatch(i: Iso, s: State, t: State, m: Move)
    requires Related(i, s, t)
    ensures m in LegalMoves(s) ==> Image(i, t, m) in LegalMoves(t) && Image(i.Inverse(), s, Image(i, t, m)) == m
    ensures m in LegalMoves(s) ==> Related(i, Next(s, m), Next(t, Image(i, t, m)))
  {
    LegalMember(s, m);
    LegalMember(t, Image(i, t, m));
    hide Apply, LegalMoves, CanReach;
    if m in LegalMoves(s) {
      MatchingReach(i, s, t, m);
      StepMatches(i, s, t, m);
      ImageRoundTrip(i, s, t, m);
    }
  }
}
