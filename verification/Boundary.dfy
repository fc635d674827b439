/** Both sides of the protocol see one game: writing a state and reading it back gives a relabelled and
    possibly turned copy that shows the same picture, whatever is played afterwards.
 */
module Boundary {
  import opened Animals
  import opened FiniteSets
  import opened States
  import opened Propagation
  import opened Propagators
  import opened LineageTables
  import opened Transition
  import opened Invariants
  import opened Symmetry
  import opened Actions
  import opened Observations

  // ---------------------------------------------------------------- rows of a written state

  lemma PieceRowReads(s: State, p: int)
    requires Shaped(s) && 0 <= p < PIECE_COUNT
    ensures var r := PieceRow(s, p);
            && r != EMPTY_ROW && Binary(r) && OneHot(r) && RowMask(r) == s.mask[p]
            && RowOrigin(r) == PublicSide(s, s.origin[p]) && RowOwner(r) == PublicSide(s, s.owner[p])
  {
    var r := PieceRow(s, p);
    assert r[5] + r[6] == 1;
    assert s.sideToMove.South? || s.sideToMove.North?;
  }

  /** The player to move is shown as South. */
  function PublicSide(s: State, side: Side): Side {
    if s.sideToMove.South? then side else side.Opposite()
  }

  lemma PieceSeenAt(e: seq<int>, s: State, source: int) returns (p: int)
    requires Shows(e, s) && 0 <= source < SOURCE_COUNT && Occupied(e, source)
    ensures 0 <= p < PIECE_COUNT && SeenAt(s, p) == source && RowAt(e, source) == PieceRow(s, p)
  {
    hide RowAt, PieceRow;
    assert SeenBelow(s, PIECE_COUNT, source);
    p :| 0 <= p < PIECE_COUNT && SeenAt(s, p) == source;
  }

  lemma SeenIsOccupied(e: seq<int>, s: State, p: int)
    requires Shows(e, s) && 0 <= p < PIECE_COUNT
    ensures 0 <= SeenAt(s, p) < SOURCE_COUNT && Occupied(e, SeenAt(s, p)) && RowAt(e, SeenAt(s, p)) == PieceRow(s, p)
  {
    hide RowAt, PieceRow;
    PieceRowReads(s, p);
  }

  // ---------------------------------------------------------------- counting rows

  ghost function RowSet(e: seq<int>, side: Side, n: int): set<int>
    requires |e| == VALUE_COUNT && 0 <= n <= SOURCE_COUNT
  {
    set j | 0 <= j < n && Belongs(e, j, side)
  }

  lemma RowSetStep(e: seq<int>, side: Side, n: int)
    requires |e| == VALUE_COUNT && 0 < n <= SOURCE_COUNT
    ensures |RowSet(e, side, n)| == |RowSet(e, side, n - 1)| + if Belongs(e, n - 1, side) then 1 else 0
  {
    hide Belongs;
    var step := if Belongs(e, n - 1, side) then {n - 1} else {};
    forall j
      ensures j in RowSet(e, side, n) <==> j in RowSet(e, side, n - 1) + step
    {
    }
    assert RowSet(e, side, n) == RowSet(e, side, n - 1) + step;
  }

  lemma {:induction false} CountIsSize(e: seq<int>, side: Side, n: int)
    requires |e| == VALUE_COUNT && 0 <= n <= SOURCE_COUNT
    ensures CountRows(e, side, n) == |RowSet(e, side, n)|
  {
    hide Belongs;
    if n > 0 {
      CountIsSize(e, side, n - 1);
      RowSetStep(e, side, n);
    }
  }

  /** No two pieces are seen at one place. */
  lemma SeenSize(s: State, pieces: set<int>, places: set<int>)
    requires Agree(s) && (forall p :: p in pieces ==> 0 <= p < PIECE_COUNT)
    requires places == set p | p in pieces :: SeenAt(s, p)
    ensures |places| == |pieces|
  {
    hide SeenAt;
    var seen := seq(PIECE_COUNT, p requires 0 <= p < PIECE_COUNT => SeenAt(s, p));
    assert places == set p | p in pieces :: seen[p];
    forall p, q | p in pieces && q in pieces && p != q
      ensures seen[p] != seen[q]
    {
      SeenApart(s, p, q);
    }
    ImageSize(seen, pieces, places);
  }

  lemma FourRows(e: seq<int>, s: State, side: Side)
    requires Agree(s) && Satisfiable(s.origin, s.mask) && Shows(e, s)
    ensures CountRows(e, side, SOURCE_COUNT) == PIECES_PER_ORIGIN
  {
    hide Satisfiable, Belongs, CountRows, SeenAt;
    CountIsSize(e, side, SOURCE_COUNT);
    SatisfiableGroupsOfFour(s.origin, s.mask);
    var pieces := Group(s.origin, PublicSide(s, side));
    var places := set p | p in pieces :: SeenAt(s, p);
    SeenSize(s, pieces, places);
    forall j
      ensures j in RowSet(e, side, SOURCE_COUNT) <==> j in places
    {
      RowsOfGroup(e, s, side, j);
    }
    assert RowSet(e, side, SOURCE_COUNT) == places;
  }

  lemma RowsOfGroup(e: seq<int>, s: State, side: Side, j: int)
    requires Shows(e, s)
    ensures j in RowSet(e, side, SOURCE_COUNT) <==>
              exists p :: p in Group(s.origin, PublicSide(s, side)) && SeenAt(s, p) == j
  {
    hide RowAt, PieceRow, SeenAt, CountRows;
    if j in RowSet(e, side, SOURCE_COUNT) {
      var p := PieceSeenAt(e, s, j);
      PieceRowReads(s, p);
      assert p in Group(s.origin, PublicSide(s, side));
    }
    if p :| p in Group(s.origin, PublicSide(s, side)) && SeenAt(s, p) == j {
      PieceRowReads(s, p);
      SeenIsOccupied(e, s, p);
    }
  }

  /** What the writer shows of a state whose masks can be satisfied, the reader finds well formed. */
  lemma ShownIsWellFormed(e: seq<int>, s: State)
    requires Agree(s) && Satisfiable(s.origin, s.mask) && Shows(e, s)
    ensures WellFormed(e)
  {
    hide RowAt, PieceRow, SeenAt, CountRows, Satisfiable, Agree, Binary;
    FourRows(e, s, South);
    FourRows(e, s, North);
    forall source | 0 <= source < SOURCE_COUNT && Occupied(e, source)
      ensures ValidRow(RowAt(e, source))
    {
      var p := PieceSeenAt(e, s, source);
      PieceRowReads(s, p);
      if s.mask[p].IsEmpty() {
        EmptyMaskContradicts(s.origin, s.mask, p);
      }
    }
  }

  // ---------------------------------------------------------------- reader and writer agree

  /** What is read from a well-formed observation is shown by that very observation. */
  lemma ReadIsShown(e: seq<int>, s: State)
    requires Reads(e, s) && WellFormed(e)
    ensures Shows(e, s)
  {
    hide RowAt, PieceRow, CountRows, ValidRow;
    forall p | 0 <= p < PIECE_COUNT
      ensures RowAt(e, SeenAt(s, p)) == PieceRow(s, p)
    {
      assert ReadsPiece(e, s, s.pos[p]);
      RowIsItsPiece(RowAt(e, s.pos[p]), s, p);
    }
    forall source | 0 <= source < SOURCE_COUNT && !SeenBelow(s, PIECE_COUNT, source)
      ensures RowAt(e, source) == EMPTY_ROW
    {
      if Occupied(e, source) {
        var p := RowHasPiece(e, s, source);
        assert false;
      }
    }
  }

  lemma RowHasPiece(e: seq<int>, s: State, source: int) returns (p: int)
    requires Reads(e, s) && 0 <= source < SOURCE_COUNT && Occupied(e, source)
    ensures 0 <= p < PIECE_COUNT && SeenAt(s, p) == source
  {
    hide RowAt, PieceAt;
    assert ReadsPiece(e, s, source);
    p := PieceAt(e, source);
  }

  /** How the reader renames the pieces of a written state. */
  ghost function ReaderIso(e: seq<int>, s: State, raw: State): Iso
    requires Shows(e, s) && Reads(e, raw)
  {
    Iso(seq(PIECE_COUNT, p requires 0 <= p < PIECE_COUNT => PieceAt(e, SeenAt(s, p))),
        seq(PIECE_COUNT, q requires 0 <= q < PIECE_COUNT =>
          PieceAtSource(s.pos, PublicSquare(raw.pos[q], s.sideToMove), 0)),
        s.sideToMove.North?)
  }

  /** A written piece is read back with the same forms, seen at the same place. */
  lemma PieceReadBack(e: seq<int>, s: State, raw: State, p: int)
    requires Shows(e, s) && Agree(s) && Reads(e, raw) && 0 <= p < PIECE_COUNT
    ensures var q := PieceAt(e, SeenAt(s, p));
            && 0 <= q < PIECE_COUNT && raw.pos[q] == SeenAt(s, p) && raw.mask[q] == s.mask[p]
            && raw.origin[q] == PublicSide(s, s.origin[p]) && raw.owner[q] == PublicSide(s, s.owner[p])
            && PieceAtSource(s.pos, PublicSquare(raw.pos[q], s.sideToMove), 0) == p
  {
    hide RowAt, PieceRow, PieceAt;
    SeenIsOccupied(e, s, p);
    PieceRowReads(s, p);
    assert ReadsPiece(e, raw, SeenAt(s, p));
    PieceAtSourceFinds(s.pos, p, 0);
  }

  lemma ReaderIsoIsValid(e: seq<int>, s: State, raw: State)
    requires Shows(e, s) && Agree(s) && Reads(e, raw)
    ensures ReaderIso(e, s, raw).Valid()
  {
    hide RowAt, PieceRow, PieceAt, PieceAtSource, Shows, Reads;
    ReadsPlaces(e, raw);
    ShowsIsShaped(e, s);
    var i := ReaderIso(e, s, raw);
    forall p | 0 <= p < PIECE_COUNT
      ensures 0 <= i.to[p] < PIECE_COUNT && i.back[i.to[p]] == p
    {
      PieceReadBack(e, s, raw, p);
    }
    forall q | 0 <= q < PIECE_COUNT
      ensures 0 <= i.back[q] < PIECE_COUNT && i.to[i.back[q]] == q
    {
      var p := PieceSeenAt(e, s, raw.pos[q]);
      PieceReadBack(e, s, raw, p);
    }
  }

  lemma ShowsIsShaped(e: seq<int>, s: State)
    requires Shows(e, s)
    ensures Shaped(s) && |e| == VALUE_COUNT
  {
    hide RowAt, PieceRow;
  }

  lemma ReadsPlaces(e: seq<int>, s: State)
    requires Reads(e, s)
    ensures Agree(s) && |e| == VALUE_COUNT && s.sideToMove == South && s.terminal == Ongoing && s.winner == NO_WINNER
    ensures forall p :: 0 <= p < PIECE_COUNT ==> Occupied(e, s.pos[p]) && PieceAt(e, s.pos[p]) == p
  {
    hide ReadsPiece, RowAt, PieceAt;
  }

  lemma ReaderMatches(e: seq<int>, s: State, raw: State)
    requires Shows(e, s) && Agree(s) && Reads(e, raw)
    ensures PiecesMatch(ReaderIso(e, s, raw), s, raw)
    ensures forall p :: 0 <= p < PIECE_COUNT ==> raw.pos[ReaderIso(e, s, raw).to[p]] == SeenAt(s, p)
  {
    hide RowAt, PieceRow, PieceAt, PieceAtSource, Shows, Reads;
    ReaderIsoIsValid(e, s, raw);
    ReadsPlaces(e, raw);
    ShowsIsShaped(e, s);
    var i := ReaderIso(e, s, raw);
    assert s.sideToMove.South? || s.sideToMove.North?;
    forall p | 0 <= p < PIECE_COUNT
      ensures PieceMatches(i, s, raw, p) && raw.pos[i.to[p]] == SeenAt(s, p)
    {
      PieceReadBack(e, s, raw, p);
    }
  }

  // ---------------------------------------------------------------- one game on both sides

  /** A playable state is never refused. */
  lemma ShownIsAccepted(e: seq<int>, s: State, raw: State)
    requires Coherent(s) && Shows(e, s) && Reads(e, raw)
    ensures Satisfiable(raw.origin, raw.mask)
  {
    hide Shows, Reads, Agree, Satisfiable, FormsSettled, PiecesMatch, ReaderIso;
    ReaderMatches(e, s, raw);
    SameSatisfiable(ReaderIso(e, s, raw), s, raw);
  }

  /** Closing what was read gives back the closed masks that were written. */
  lemma ClosedCopyMatches(i: Iso, s: State, raw: State)
    requires Coherent(s) && PiecesMatch(i, s, raw) && Satisfiable(raw.origin, raw.mask)
    ensures |raw.mask| == PIECE_COUNT && PiecesMatch(i, s, raw.(mask := Closure(raw.origin, raw.mask)))
  {
    hide Agree, Satisfiable, FormsSettled, PieceMatches, Closure;
    ClosedIsFixedPoint(s.origin, s.mask);
    PropagationMatches(i, s, raw);
    SameSatisfiable(i, s, raw);
    assert s.(mask := s.mask) == s;
  }

  /** The state the engine reads is a relabelled, possibly turned copy of the referee's state; it is
      inside the invariant and shows the same picture. */
  lemma ObservationIsFaithful(e: seq<int>, s: State, t: State) returns (i: Iso)
    requires Playable(s) && Shows(e, s) && Decodes(e, s.turn, t)
    ensures i.flip == s.sideToMove.North?
    ensures SameView(i, s, t) && Playable(t) && t.sideToMove == South
  {
    hide Shows, Reads, PiecesMatch, Satisfiable, Closure, ReaderIso, Coherent, Custody, HasSurvivingTry;
    var raw :| Reads(e, raw) && raw.turn == s.turn % TURN_MODULUS && DecodedFrom(raw, s.turn, t);
    PlayableIsAgreed(s);
    i := IsoOfReader(e, s, raw);
    ClosedCopyMatches(i, s, raw);
    ReadsPlaces(e, raw);
    CopyIsRelated(i, s, raw, t);
    CopyIsPlayable(i, s, t, raw);
  }

  lemma PlayableIsAgreed(s: State)
    requires Playable(s)
    ensures Coherent(s) && Agree(s) && s.turn < TURN_LIMIT && s.terminal == Ongoing && s.winner == NO_WINNER
  {
    hide Custody, HasSurvivingTry, Closed;
  }

  lemma IsoOfReader(e: seq<int>, s: State, raw: State) returns (i: Iso)
    requires Shows(e, s) && Agree(s) && Reads(e, raw)
    ensures i.flip == s.sideToMove.North? && PiecesMatch(i, s, raw) && Shaped(s) && Shaped(raw) && i.Valid()
    ensures forall p :: 0 <= p < PIECE_COUNT ==> raw.pos[i.to[p]] == SeenAt(s, p)
  {
    hide Shows, Reads, Agree, PieceMatches;
    ReaderMatches(e, s, raw);
    i := ReaderIso(e, s, raw);
  }

  lemma CopyIsRelated(i: Iso, s: State, raw: State, t: State)
    requires Agree(s) && Agree(raw) && s.turn < TURN_LIMIT && s.terminal == Ongoing && s.winner == NO_WINNER
    requires raw.sideToMove == South && raw.winner == NO_WINNER && raw.turn == s.turn % TURN_MODULUS
    requires i.flip == s.sideToMove.North? && DecodedFrom(raw, s.turn, t)
    requires PiecesMatch(i, s, raw.(mask := Closure(raw.origin, raw.mask)))
    requires i.Valid() && forall p :: 0 <= p < PIECE_COUNT ==> raw.pos[i.to[p]] == SeenAt(s, p)
    ensures SameView(i, s, t)
  {
    hide Satisfiable, Closure, PieceMatches;
    SamePieces(i, s, raw.(mask := Closure(raw.origin, raw.mask)), s, t);
    assert s.sideToMove.South? || s.sideToMove.North?;
    hide PiecesMatch, Agree;
  }

  lemma CopyIsPlayable(i: Iso, s: State, t: State, raw: State)
    requires Playable(s) && SameView(i, s, t) && DecodedFrom(raw, s.turn, t)
    ensures Playable(t)
  {
    hide Satisfiable, Closure, PieceMatches, HasSurvivingTry, Agree, HasLionCandidate, HasHandLionCandidate, SameSeen;
    ClosureIsClosed(raw.origin, raw.mask);
    CandidatesMatch(i, s, t, s.sideToMove);
    forall q | 0 <= q < PIECE_COUNT
      ensures !(t.mask[q].chick && t.mask[q].hen) && (t.mask[q].hen ==> IsBoardSquare(t.pos[q]))
      ensures t.mask[q].lion ==> IsBoardSquare(t.pos[q]) && t.owner[q] == t.origin[q]
    {
      CopiedPiece(i, s, t, i.back[q]);
    }
  }

  lemma CopiedPiece(i: Iso, s: State, t: State, p: int)
    requires PiecesMatch(i, s, t) && 0 <= p < PIECE_COUNT
    ensures var q := i.to[p]; t.mask[q] == s.mask[p] && (IsBoardSquare(s.pos[p]) <==> IsBoardSquare(t.pos[q]))
    ensures var q := i.to[p]; t.owner[q] == i.Seat(s.owner[p]) && t.origin[q] == i.Seat(s.origin[p])
  {
    assert PieceMatches(i, s, t, p);
  }

  /** One protocol turn: the referee writes its state, the engine reads it. From then on both play one
      game: the same action lists are legal, with the same verdicts. */
  method ExchangeState(s: State, mode: PropagationMode, table: seq<Entry>) returns (t: State, ghost i: Iso)
    requires Playable(s) && IsLineageTable(table)
    ensures SameView(i, s, t) && Playable(t) && t.sideToMove == South
    ensures forall actions :: Played(s, actions).Some? <==> Played(t, actions).Some?
    ensures forall actions :: Played(s, actions).Some? ==>
              Played(s, actions).value.terminal == Played(t, actions).value.terminal
  {
    hide Shows, Reads, WellFormed, Decodes, Satisfiable, SameView, Played, Custody, HasSurvivingTry, Closed, ActionSet;
    PlayableIsAgreed(s);
    SatisfiableWhenCoherent(s);
    var e := WriteObservation(s);
    ShownIsWellFormed(e, s);
    var r := StateFromObservation(e, s.turn, mode, table);
    if r.Err? {
      ghost var raw :| Reads(e, raw) && !Satisfiable(raw.origin, raw.mask);
      ShownIsAccepted(e, s, raw);
      assert false;
    } else {
      t := r.value;
      i := ObservationIsFaithful(e, s, t);
      forall actions
        ensures Played(s, actions).Some? <==> Played(t, actions).Some?
        ensures Played(s, actions).Some? ==> Played(s, actions).value.terminal == Played(t, actions).value.terminal
      {
        RunsAgree(i, s, t, actions);
      }
    }
  }

  lemma SatisfiableWhenCoherent(s: State)
    requires Coherent(s)
    ensures Satisfiable(s.origin, s.mask)
  {
    hide Agree, Satisfiable, Closure, FormsSettled;
  }
}
