/** Public action numbers: the coordinates both sides of the protocol use, seen by the player to move.

    Two states that show the same picture to the player to move have the same legal action numbers, and
    playing one number on both keeps the pictures the same, along every run.
 */
module Actions {
  import opened Animals
  import opened States
  import opened Propagation
  import opened Propagators
  import opened Transition
  import opened Rules
  import opened MoveGeneration
  import opened Invariants
  import opened Symmetry
  import opened Permuting

  const ACTION_COUNT := SOURCE_COUNT * BOARD_SIZE

  // ---------------------------------------------------------------- action numbers

  /** None stands for the out-of-range error. */
  function EncodeActionIndex(source: int, destination: int): Option<int> {
    if 0 <= source < SOURCE_COUNT && 0 <= destination < BOARD_SIZE then Some(source * BOARD_SIZE + destination)
    else None
  }

  function DecodeActionIndex(action: int): Option<(int, int)> {
    if 0 <= action < ACTION_COUNT then Some((action / BOARD_SIZE, action % BOARD_SIZE)) else None
  }

  /** Encoding and decoding undo each other and fail on exactly the coordinates and numbers out of range. */
  lemma ActionIndexRoundTrip(source: int, destination: int, action: int)
    ensures EncodeActionIndex(source, destination) == Some(action) <==>
              DecodeActionIndex(action) == Some((source, destination))
    ensures EncodeActionIndex(source, destination).Some? <==>
              0 <= source < SOURCE_COUNT && 0 <= destination < BOARD_SIZE
    ensures DecodeActionIndex(action).Some? <==> 0 <= action < ACTION_COUNT
    ensures EncodeActionIndex(source, destination) == Some(action) <==>
              0 <= source < 20 && 0 <= destination < 12 && action == 12 * source + destination
  {
    if 0 <= source < SOURCE_COUNT && 0 <= destination < BOARD_SIZE {
      assert (source * BOARD_SIZE + destination) / BOARD_SIZE == source;
    }
  }

  /** North sees the board turned by 180 degrees; hand slots keep their numbers. */
  function PublicSquare(square: int, perspective: Side): int {
    if square >= BOARD_SIZE || perspective.South? then square else BOARD_SIZE - 1 - square
  }

  function PublicAction(m: Move, perspective: Side): int {
    PublicSquare(m.from, perspective) * BOARD_SIZE + PublicSquare(m.to, perspective)
  }

  lemma PublicActionIsEncoded(m: Move, perspective: Side)
    requires m.Valid()
    ensures EncodeActionIndex(PublicSquare(m.from, perspective), PublicSquare(m.to, perspective)) ==
              Some(PublicAction(m, perspective))
    ensures DecodeActionIndex(PublicAction(m, perspective)) ==
              Some((PublicSquare(m.from, perspective), PublicSquare(m.to, perspective)))
  {
    ActionIndexRoundTrip(PublicSquare(m.from, perspective), PublicSquare(m.to, perspective),
                         PublicAction(m, perspective));
  }

  /** What the engine answers for its own move, which it sees as South. */
  function EncodeActionMove(m: Move): int {
    if !m.Valid() then -1 else m.from * BOARD_SIZE + m.to
  }

  /** The numbers on the wire: twelve for every source and one for every destination, counted by North from the
      other end of the board; hand slots count alike for both. */
  lemma NumbersInWords(m: Move)
    requires m.Valid()
    ensures PublicAction(m, South) == 12 * m.from + m.to == EncodeActionMove(m)
    ensures PublicAction(m, North) == 12 * (if m.from < 12 then 11 - m.from else m.from) + 11 - m.to
  {
  }

  function PieceAtSource(pos: seq<int>, source: int, from: int): int
    decreases |pos| - from
  {
    if from < 0 || from >= |pos| then -1
    else if pos[from] == source then from
    else PieceAtSource(pos, source, from + 1)
  }

  /** The move an action number stands for, or the invalid move if nothing stands on its source. */
  function MoveOf(s: State, action: int): Move {
    var source := PublicSquare(action / BOARD_SIZE, s.sideToMove);
    var destination := PublicSquare(action % BOARD_SIZE, s.sideToMove);
    var piece := PieceAtSource(s.pos, source, 0);
    if piece < 0 then NO_MOVE else Move(piece, source, destination)
  }

  method ActualMove(s: State, action: int) returns (m: Move)
    requires Shaped(s) && 0 <= action < ACTION_COUNT
    ensures m == MoveOf(s, action)
  {
    var source := PublicSquare(action / BOARD_SIZE, s.sideToMove);
    var destination := PublicSquare(action % BOARD_SIZE, s.sideToMove);
    for piece := 0 to PIECE_COUNT
      invariant PieceAtSource(s.pos, source, 0) == PieceAtSource(s.pos, source, piece)
    {
      if s.pos[piece] == source {
        return Move(piece, source, destination);
      }
    }
    m := NO_MOVE;
  }

  lemma {:induction false} PieceAtSourceFinds(pos: seq<int>, p: int, from: int)
    requires 0 <= from <= p < |pos| && forall q :: 0 <= q < |pos| && q != p ==> pos[q] != pos[p]
    ensures PieceAtSource(pos, pos[p], from) == p
    decreases p - from
  {
    if from < p {
      PieceAtSourceFinds(pos, p, from + 1);
    }
  }

  /** A move from a piece's own square and its public number determine each other. */
  lemma MoveRoundTrip(s: State, m: Move)
    requires Agree(s) && m.Valid() && s.pos[m.piece] == m.from
    ensures MoveOf(s, PublicAction(m, s.sideToMove)) == m && 0 <= PublicAction(m, s.sideToMove) < ACTION_COUNT
  {
    PublicActionIsEncoded(m, s.sideToMove);
    PieceAtSourceFinds(s.pos, m.piece, 0);
  }

  /** Every number is the move of the piece seen on its source, or the invalid move if none is. */
  lemma ActionInWords(s: State, action: int)
    requires Agree(s) && 0 <= action < 240
    ensures var m := MoveOf(s, action);
            if exists p :: 0 <= p < 8
                 && action / 12 == (if s.sideToMove.North? && s.pos[p] < 12 then 11 - s.pos[p] else s.pos[p])
            then m.Valid() && s.pos[m.piece] == m.from && PublicAction(m, s.sideToMove) == action
            else m == Move(255, 12, 255)
  {
    var source := PublicSquare(action / 12, s.sideToMove);
    if p :| 0 <= p < 8 && action / 12 == (if s.sideToMove.North? && s.pos[p] < 12 then 11 - s.pos[p] else s.pos[p]) {
      assert s.pos[p] == source;
      PieceAtSourceFinds(s.pos, p, 0);
    } else {
      NothingAtSource(s.pos, source, 0);
    }
  }

  lemma {:induction false} NothingAtSource(pos: seq<int>, source: int, from: int)
    requires 0 <= from && forall p :: 0 <= p < |pos| ==> pos[p] != source
    ensures PieceAtSource(pos, source, from) == -1
    decreases |pos| - from
  {
    if from < |pos| {
      NothingAtSource(pos, source, from + 1);
    }
  }

  /** Different legal moves have different public numbers. */
  lemma NumbersIdentifyMoves(s: State, m: Move, n: Move)
    requires Agree(s) && m in LegalMoves(s) && n in LegalMoves(s)
    requires PublicAction(m, s.sideToMove) == PublicAction(n, s.sideToMove)
    ensures m == n
  {
    hide LegalMoves, PublicAction, MoveOf, Apply;
    LegalSource(s, m);
    LegalSource(s, n);
    MoveRoundTrip(s, m);
    MoveRoundTrip(s, n);
  }

  // ---------------------------------------------------------------- legal action numbers

  ghost function ActionSet(s: State): set<int>
    requires Shaped(s)
  {
    set m | m in LegalMoves(s) :: PublicAction(m, s.sideToMove)
  }

  lemma ActionSetMember(s: State, action: int)
    requires Agree(s)
    ensures action in ActionSet(s) <==>
              MoveOf(s, action) in LegalMoves(s) && PublicAction(MoveOf(s, action), s.sideToMove) == action
  {
    hide LegalMoves, PublicAction, MoveOf, Apply, CanReach;
    if action in ActionSet(s) {
      var m :| m in LegalMoves(s) && PublicAction(m, s.sideToMove) == action;
      LegalSource(s, m);
      MoveRoundTrip(s, m);
    }
  }

  lemma LegalSource(s: State, m: Move)
    requires Shaped(s) && m in LegalMoves(s)
    ensures m.Valid() && s.pos[m.piece] == m.from && Apply(s, m) == Some(Next(s, m))
  {
    hide LegalMoves, Apply, CanReach;
    LegalMember(s, m);
  }

  /** The sorted list the referee publishes. */
  method LegalActions(s: State, mode: PropagationMode, t: RuleTables) returns (actions: seq<int>)
    requires Agree(s) && ValidTables(t)
    ensures forall a :: a in actions <==> a in ActionSet(s)
    ensures forall i, j :: 0 <= i < j < |actions| ==> actions[i] <= actions[j]
    ensures |actions| == |LegalMoves(s)|
  {
    hide LegalMoves, PublicAction;
    var moves := GenerateLegalMoves(s, mode, t);
    var numbers: seq<int> := [];
    for i := 0 to |moves|
      invariant |numbers| == i && forall k :: 0 <= k < i ==> numbers[k] == PublicAction(moves[k], s.sideToMove)
    {
      numbers := numbers + [PublicAction(moves[i], s.sideToMove)];
    }
    actions := SortUp(numbers);
    SortUpSorts(numbers);
    forall a
      ensures a in actions <==> a in ActionSet(s)
    {
      assert a in actions <==> a in multiset(actions);
      assert a in numbers <==> a in multiset(numbers);
      if a in numbers {
        var k :| 0 <= k < |numbers| && numbers[k] == a;
        assert moves[k] in LegalMoves(s);
      }
      if a in ActionSet(s) {
        var m :| m in LegalMoves(s) && PublicAction(m, s.sideToMove) == a;
        var k :| 0 <= k < |moves| && moves[k] == m;
        assert numbers[k] == a;
      }
    }
    assert |multiset(actions)| == |actions| && |multiset(numbers)| == |numbers|;
  }

  // ---------------------------------------------------------------- one picture

  /** Where a piece stands for the player to move. */
  function SeenAt(s: State, p: int): int
    requires 0 <= p < |s.pos|
  {
    PublicSquare(s.pos[p], s.sideToMove)
  }

  ghost predicate SameSeen(i: Iso, s: State, t: State)
  {
    && i.Valid() && Shaped(s) && Shaped(t)
    && forall p :: 0 <= p < PIECE_COUNT ==> SeenAt(t, i.to[p]) == SeenAt(s, p)
  }

  /** Two states that describe one situation and show the player to move one picture, slots included. */
  ghost predicate SameView(i: Iso, s: State, t: State)
  {
    Related(i, s, t) && SameSeen(i, s, t)
  }

  lemma SameAction(i: Iso, s: State, t: State, m: Move)
    requires SameView(i, s, t) && m.Valid() && s.pos[m.piece] == m.from
    ensures PublicAction(Image(i, t, m), t.sideToMove) == PublicAction(m, s.sideToMove)
  {
    hide Agree, PiecesMatch;
    assert SeenAt(t, i.to[m.piece]) == SeenAt(s, m.piece);
  }

  lemma ActionsIncluded(i: Iso, s: State, t: State)
    requires SameView(i, s, t)
    ensures Shaped(s) && Shaped(t) && ActionSet(s) <= ActionSet(t)
  {
    hide LegalMoves, PiecesMatch, PublicAction, Image, SameSeen, Agree;
    ViewIsShaped(i, s, t);
    forall a | a in ActionSet(s)
      ensures a in ActionSet(t)
    {
      var m :| m in LegalMoves(s) && PublicAction(m, s.sideToMove) == a;
      LegalSource(s, m);
      LegalMovesMatch(i, s, t, m);
      SameAction(i, s, t, m);
    }
  }

  lemma ViewIsShaped(i: Iso, s: State, t: State)
    requires SameView(i, s, t)
    ensures Shaped(s) && Shaped(t) && Agree(s) && Agree(t) && i.Valid()
  {
  }

  lemma InverseView(i: Iso, s: State, t: State)
    requires SameView(i, s, t)
    ensures SameView(i.Inverse(), t, s)
  {
    hide PiecesMatch, Agree;
    InverseRelated(i, s, t);
    forall q | 0 <= q < PIECE_COUNT
      ensures SeenAt(s, i.Inverse().to[q]) == SeenAt(t, q)
    {
      assert SeenAt(t, i.to[i.back[q]]) == SeenAt(s, i.back[q]);
    }
  }

  /** One picture, one set of legal action numbers. */
  lemma SameActions(i: Iso, s: State, t: State)
    requires SameView(i, s, t)
    ensures Shaped(s) && Shaped(t) && ActionSet(s) == ActionSet(t)
  {
    hide SameView, Shaped, ActionSet;
    InverseView(i, s, t);
    ActionsIncluded(i, s, t);
    ActionsIncluded(i.Inverse(), t, s);
  }

  /** What the engine answers for a legal move of its own state is a legal number for the referee, which
      reads it as the corresponding move. */
  lemma EngineReply(i: Iso, s: State, t: State, n: Move)
    requires SameView(i, s, t) && t.sideToMove == South && Shaped(s) && Shaped(t) && n in LegalMoves(t)
    ensures EncodeActionMove(n) in ActionSet(s)
    ensures Image(i.Inverse(), s, n) in LegalMoves(s) && MoveOf(s, EncodeActionMove(n)) == Image(i.Inverse(), s, n)
  {
    hide LegalMoves, Related, Image, SameSeen, MoveOf, Apply, CanReach;
    ViewIsShaped(i, s, t);
    InverseView(i, s, t);
    LegalSource(t, n);
    LegalMovesMatch(i.Inverse(), t, s, n);
    var m := ImageIsMoveOf(i.Inverse(), t, s, n, EncodeActionMove(n));
    ActionSetMember(s, EncodeActionMove(n));
  }

  // ---------------------------------------------------------------- one step keeps the picture

  /** Related states with the same hand slots give a captured piece the same slot. */
  lemma {:induction false} SameFreeSlot(i: Iso, pos: seq<int>, pos': seq<int>, excluded: int, slot: int)
    requires i.Valid() && |pos| == |pos'| == PIECE_COUNT && 0 <= excluded < PIECE_COUNT && slot >= FIRST_HAND_SLOT
    requires forall p :: 0 <= p < PIECE_COUNT && (pos[p] >= BOARD_SIZE || pos'[i.to[p]] >= BOARD_SIZE) ==>
               pos'[i.to[p]] == pos[p]
    ensures LowestFreeSlot(pos, excluded, slot) == LowestFreeSlot(pos', i.to[excluded], slot)
    decreases SOURCE_COUNT - slot
  {
    hide LowestFreeSlot;
    if p :| 0 <= p < |pos| && p != excluded && pos[p] == slot {
      assert pos'[i.to[p]] == slot && i.to[p] != i.to[excluded];
    }
    if q :| 0 <= q < |pos'| && q != i.to[excluded] && pos'[q] == slot {
      assert i.to[i.back[q]] == q;
    }
    assert SlotUsed(pos, excluded, slot) <==> SlotUsed(pos', i.to[excluded], slot);
    UnfoldFreeSlot(pos, excluded, slot);
    UnfoldFreeSlot(pos', i.to[excluded], slot);
    if slot < SOURCE_COUNT {
      SameFreeSlot(i, pos, pos', excluded, slot + 1);
    }
  }

  lemma UnfoldFreeSlot(pos: seq<int>, excluded: int, slot: int)
    ensures LowestFreeSlot(pos, excluded, slot) ==
              if slot >= SOURCE_COUNT then -1
              else if !SlotUsed(pos, excluded, slot) then slot
              else LowestFreeSlot(pos, excluded, slot + 1)
  {
    hide SlotUsed;
  }

  /** Where everything stands after a move. */
  lemma PositionsAfter(s: State, m: Move)
    requires Shaped(s) && IsPseudoLegal(s, m) && Apply(s, m).Some?
    ensures Moved(s, m).Some? && Apply(s, m).value.pos == Moved(s, m).value.pos
  {
    hide Moved, Satisfiable, HasLionCandidate, HasHandLionCandidate, HasSurvivingTry, IsPseudoLegal;
  }

  lemma MovedPositions(s: State, m: Move)
    requires Agree(s) && IsPseudoLegal(s, m) && Moved(s, m).Some?
    ensures var captured := s.board[m.to];
            Moved(s, m).value.pos ==
              (if captured < 0 then s.pos
               else s.pos[captured := LowestFreeSlot(s.pos, captured, FIRST_HAND_SLOT)])[m.piece := m.to]
  {
    hide LowestFreeSlot, Movers;
  }

  lemma HandSlotsAgree(i: Iso, s: State, t: State, p: int)
    requires SameView(i, s, t) && 0 <= p < PIECE_COUNT
    ensures s.pos[p] >= BOARD_SIZE || t.pos[i.to[p]] >= BOARD_SIZE ==> t.pos[i.to[p]] == s.pos[p]
    ensures s.pos[p] < BOARD_SIZE ==> t.pos[i.to[p]] == i.Square(s.pos[p])
  {
    hide Agree;
    assert PieceMatches(i, s, t, p) && SeenAt(t, i.to[p]) == SeenAt(s, p);
  }

  /** After the same move every piece is still seen at the same place. */
  lemma StepKeepsSeen(i: Iso, s: State, t: State, m: Move, s': State, t': State)
    requires SameView(i, s, t) && IsPseudoLegal(s, m) && IsPseudoLegal(t, Image(i, t, m))
    requires Apply(s, m) == Some(s') && Apply(t, Image(i, t, m)) == Some(t') && Related(i, s', t')
    ensures SameSeen(i, s', t')
  {
    hide Apply, Agree, PiecesMatch, LowestFreeSlot, Moved, CanReach, SameView;
    ViewIsShaped(i, s, t);
    var n := Image(i, t, m);
    ApplyPasses(s, m, s');
    ApplyPasses(t, n, t');
    PositionsAfter(s, m);
    PositionsAfter(t, n);
    MovedPositions(s, m);
    MovedPositions(t, n);
    ImageOfMove(i, s, t, m);
    if s.board[m.to] >= 0 {
      FreeSlotExists(s.pos, s.board[m.to]);
    }
    forall p | 0 <= p < PIECE_COUNT
      ensures SeenAt(t', i.to[p]) == SeenAt(s', p)
    {
      HandSlotsAgree(i, s, t, p);
      assert i.to[p] == i.to[m.piece] <==> p == m.piece;
    }
  }

  lemma ApplyPasses(s: State, m: Move, t: State)
    requires Apply(s, m) == Some(t)
    ensures t.sideToMove == s.sideToMove.Opposite() && Shaped(t)
  {
    hide Satisfiable, HasLionCandidate, HasHandLionCandidate, HasSurvivingTry, Movers, LowestFreeSlot;
  }

  lemma ImageOfMove(i: Iso, s: State, t: State, m: Move)
    requires SameView(i, s, t) && m.Valid() && s.pos[m.piece] == m.from
    ensures var n := Image(i, t, m); n.piece == i.to[m.piece] && n.to == i.Square(m.to)
    ensures var captured := s.board[m.to]; var captured' := t.board[i.Square(m.to)];
            captured' == (if captured < 0 then EMPTY_SQUARE else i.to[captured])
    ensures s.board[m.to] >= 0 ==>
              LowestFreeSlot(s.pos, s.board[m.to], FIRST_HAND_SLOT) ==
                LowestFreeSlot(t.pos, i.to[s.board[m.to]], FIRST_HAND_SLOT)
    ensures t.sideToMove == i.Seat(s.sideToMove)
  {
    hide LowestFreeSlot;
    MatchingBoards(i, s, t, m.to);
    if s.board[m.to] >= 0 {
      forall p | 0 <= p < PIECE_COUNT
        ensures s.pos[p] >= BOARD_SIZE || t.pos[i.to[p]] >= BOARD_SIZE ==> t.pos[i.to[p]] == s.pos[p]
      {
        HandSlotsAgree(i, s, t, p);
      }
      SameFreeSlot(i, s.pos, t.pos, s.board[m.to], FIRST_HAND_SLOT);
    }
  }

  /** Playing one action number on both states keeps one picture. */
  lemma StepKeepsView(i: Iso, s: State, t: State, action: int)
    requires SameView(i, s, t) && Shaped(s) && Shaped(t) && action in ActionSet(s)
    ensures PlayOne(s, action).Some? && PlayOne(t, action).Some?
    ensures SameView(i, PlayOne(s, action).value, PlayOne(t, action).value)
  {
    hide Apply, LegalMoves, Related, SameSeen, MoveOf, PublicAction, Image, ActionSet;
    ViewIsShaped(i, s, t);
    SameActions(i, s, t);
    ActionSetMember(s, action);
    var m := MoveOf(s, action);
    LegalSource(s, m);
    LegalMovesMatch(i, s, t, m);
    var n := ImageIsMoveOf(i, s, t, m, action);
    LegalSource(t, n);
    LegalMember(s, m);
    LegalMember(t, n);
    StepKeepsSeen(i, s, t, m, Next(s, m), Next(t, n));
  }

  lemma ImageIsMoveOf(i: Iso, s: State, t: State, m: Move, action: int) returns (n: Move)
    requires SameView(i, s, t) && m.Valid() && s.pos[m.piece] == m.from && PublicAction(m, s.sideToMove) == action
    ensures n == Image(i, t, m) == MoveOf(t, action) && PublicAction(n, t.sideToMove) == action
  {
    hide MoveOf, PublicAction, Agree, PieceMatches;
    n := Image(i, t, m);
    ImageRoundTrip(i, s, t, m);
    SameAction(i, s, t, m);
    MoveRoundTrip(t, n);
  }

  // ---------------------------------------------------------------- whole runs

  /** What one action number leads to, if it is legal. */
  ghost function PlayOne(s: State, action: int): Option<State> {
    if Shaped(s) && action in ActionSet(s) then Apply(s, MoveOf(s, action)) else None
  }

  /** The state a list of action numbers leads to, or None as soon as one is not legal. */
  ghost function Played(s: State, actions: seq<int>): Option<State>
    decreases |actions|
  {
    if actions == [] then Some(s)
    else
      var next :- PlayOne(s, actions[0]);
      Played(next, actions[1..])
  }

  /** States that show one picture go on doing so however the game is played: the same action lists are
      legal on both, the verdicts agree, and afterwards the legal numbers agree again. */
  lemma {:induction false} RunsAgree(i: Iso, s: State, t: State, actions: seq<int>)
    requires SameView(i, s, t)
    ensures Played(s, actions).Some? <==> Played(t, actions).Some?
    ensures Played(s, actions).Some? ==>
              var s', t' := Played(s, actions).value, Played(t, actions).value;
              && SameView(i, s', t') && Shaped(s') && Shaped(t')
              && ActionSet(s') == ActionSet(t') && s'.terminal == t'.terminal
    decreases |actions|
  {
    hide SameView, ActionSet, PlayOne, Shaped;
    SameActions(i, s, t);
    if actions == [] {
      ViewVerdict(i, s, t);
    } else if actions[0] in ActionSet(s) {
      StepKeepsView(i, s, t, actions[0]);
      RunsAgree(i, PlayOne(s, actions[0]).value, PlayOne(t, actions[0]).value, actions[1..]);
    } else {
      NotPlayed(s, actions[0]);
      NotPlayed(t, actions[0]);
    }
  }

  lemma NotPlayed(s: State, action: int)
    requires Shaped(s) && action !in ActionSet(s)
    ensures PlayOne(s, action).None?
  {
  }

  lemma ViewVerdict(i: Iso, s: State, t: State)
    requires SameView(i, s, t)
    ensures s.terminal == t.terminal
  {
    hide PiecesMatch, Agree;
  }
}
