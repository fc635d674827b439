/** Pseudo-legal generation by geometry and occupancy, and the legal filter that runs every candidate
    through a complete transition.
 */
module MoveGeneration {
  import opened Animals
  import opened States
  import opened Transition
  import opened Propagators
  import opened Rules
  import MT = MoveTables

  /** What local geometry and occupancy allow one piece on its owner's turn. */
  predicate CanReach(s: State, p: int, to: int)
    requires |s.board| == BOARD_SIZE && |s.pos| == |s.mask| == |s.owner| == PIECE_COUNT
    requires forall square :: 0 <= square < BOARD_SIZE ==> s.board[square] < PIECE_COUNT
    requires 0 <= p < PIECE_COUNT && 0 <= to < BOARD_SIZE
  {
    if IsHandPosition(s.pos[p]) then s.board[to] == EMPTY_SQUARE
    else !s.mask[p].Meet(Movers(s.owner[p], s.pos[p], to)).IsEmpty()
         && (s.board[to] < 0 || s.owner[s.board[to]] != s.owner[p])
  }

  predicate IsPseudoLegal(s: State, m: Move)
    requires |s.board| == BOARD_SIZE && |s.pos| == |s.mask| == |s.owner| == PIECE_COUNT
    requires forall square :: 0 <= square < BOARD_SIZE ==> s.board[square] < PIECE_COUNT
  {
    && s.terminal == Ongoing && m.Valid() && s.owner[m.piece] == s.sideToMove
    && s.pos[m.piece] == m.from && CanReach(s, m.piece, m.to)
  }

  /** The moves of one piece to squares below a bound, by ascending destination. */
  function PieceMoves(s: State, p: int, bound: nat): seq<Move>
    requires Shaped(s) && 0 <= p < PIECE_COUNT && bound <= BOARD_SIZE
  {
    if bound == 0 then []
    else PieceMoves(s, p, bound - 1) + if CanReach(s, p, bound - 1) then [Move(p, s.pos[p], bound - 1)] else []
  }

  /** The moves of all pieces of the side to move below a bound, by ascending piece. */
  function MovesOfPieces(s: State, bound: nat): seq<Move>
    requires Shaped(s) && bound <= PIECE_COUNT
  {
    if bound == 0 then []
    else MovesOfPieces(s, bound - 1)
         + if s.owner[bound - 1] == s.sideToMove then PieceMoves(s, bound - 1, BOARD_SIZE) else []
  }

  function PseudoLegalMoves(s: State): seq<Move>
    requires Shaped(s)
  {
    if s.terminal != Ongoing then [] else MovesOfPieces(s, PIECE_COUNT)
  }

  ghost function Accepted(s: State, moves: seq<Move>): seq<Move>
    requires Shaped(s)
  {
    if moves == [] then []
    else
      var n := |moves| - 1;
      Accepted(s, moves[..n]) + if Apply(s, moves[n]).Some? then [moves[n]] else []
  }

  /** Where a legal move leads. */
  ghost function Next(s: State, m: Move): State {
    var r := Apply(s, m);
    if r.Some? then r.value else s
  }

  ghost function LegalMoves(s: State): seq<Move>
    requires Shaped(s)
  {
    Accepted(s, PseudoLegalMoves(s))
  }

  // ---------------------------------------------------------------- what the lists contain

  lemma {:induction false} PieceMovesMember(s: State, p: int, bound: nat, m: Move)
    requires Shaped(s) && 0 <= p < PIECE_COUNT && bound <= BOARD_SIZE
    ensures m in PieceMoves(s, p, bound) <==>
              m.piece == p && m.from == s.pos[p] && 0 <= m.to < bound && CanReach(s, p, m.to)
  {
    hide CanReach;
    if bound > 0 {
      PieceMovesMember(s, p, bound - 1, m);
    }
  }

  lemma {:induction false} MovesOfPiecesMember(s: State, bound: nat, m: Move)
    requires Shaped(s) && bound <= PIECE_COUNT
    ensures m in MovesOfPieces(s, bound) <==>
              && 0 <= m.piece < bound && s.owner[m.piece] == s.sideToMove && m.from == s.pos[m.piece]
              && 0 <= m.to < BOARD_SIZE && CanReach(s, m.piece, m.to)
  {
    hide CanReach, PieceMoves;
    if bound > 0 {
      PieceMovesMember(s, bound - 1, BOARD_SIZE, m);
      MovesOfPiecesMember(s, bound - 1, m);
    }
  }

  /** The generator lists exactly the moves geometry and occupancy allow. */
  lemma PseudoLegalMember(s: State, m: Move)
    requires Shaped(s)
    ensures m in PseudoLegalMoves(s) <==> IsPseudoLegal(s, m)
  {
    hide CanReach;
    MovesOfPiecesMember(s, PIECE_COUNT, m);
  }

  lemma {:induction false} AcceptedMember(s: State, moves: seq<Move>, m: Move)
    requires Shaped(s)
    ensures m in Accepted(s, moves) <==> m in moves && Apply(s, m).Some?
  {
    hide Apply;
    if moves != [] {
      var n := |moves| - 1;
      AcceptedMember(s, moves[..n], m);
      assert moves == moves[..n] + [moves[n]];
    }
  }

  /** Legal moves are the pseudo-legal ones whose transition succeeds. */
  lemma LegalMember(s: State, m: Move)
    requires Shaped(s)
    ensures m in LegalMoves(s) <==> IsPseudoLegal(s, m) && Apply(s, m).Some?
  {
    hide Apply, IsPseudoLegal;
    PseudoLegalMember(s, m);
    AcceptedMember(s, PseudoLegalMoves(s), m);
  }

  /** What is listed for a piece on the board: its steps, form by form, to squares its owner does not hold. */
  lemma BoardMovesInWords(s: State, p: int, to: int)
    requires Shaped(s) && 0 <= p < 8 && 0 <= to < 12 && s.pos[p] < 12
    ensures var from := s.pos[p];
            var ahead := if s.owner[p].South? then from / 3 - to / 3 else to / 3 - from / 3;
            var aside := if from % 3 < to % 3 then to % 3 - from % 3 else from % 3 - to % 3;
            Move(p, from, to) in PseudoLegalMoves(s) <==>
              && s.terminal == Ongoing && s.owner[p] == s.sideToMove
              && (s.board[to] == -1 || s.owner[s.board[to]] != s.owner[p])
              && (|| (s.mask[p].chick && ahead == 1 && aside == 0)
                  || (s.mask[p].giraffe && ((ahead in {-1, 1} && aside == 0) || (ahead == 0 && aside == 1)))
                  || (s.mask[p].elephant && ahead in {-1, 1} && aside == 1)
                  || (s.mask[p].lion && -1 <= ahead <= 1 && aside <= 1 && from != to)
                  || (s.mask[p].hen && -1 <= ahead <= 1 && aside <= 1 && from != to && !(ahead == -1 && aside == 1)))
  {
    hide Movers, PseudoLegalMoves;
    PseudoLegalMember(s, Move(p, s.pos[p], to));
    MT.StepsInWords(s.owner[p], s.pos[p], to);
  }

  /** What is listed for a piece in hand: every empty square. Nothing is listed for a move from elsewhere. */
  lemma DropsInWords(s: State, p: int, from: int, to: int)
    requires Shaped(s) && 0 <= p < 8 && 0 <= to < 12
    ensures s.pos[p] >= 12 ==>
              (Move(p, from, to) in PseudoLegalMoves(s) <==>
                 s.terminal == Ongoing && s.owner[p] == s.sideToMove && from == s.pos[p] && s.board[to] == -1)
    ensures Move(p, from, to) in PseudoLegalMoves(s) ==> from == s.pos[p]
  {
    hide Movers, PseudoLegalMoves;
    PseudoLegalMember(s, Move(p, from, to));
  }

  /** By ascending piece, then by ascending destination. */
  ghost predicate InOrder(moves: seq<Move>)
  {
    forall i, j :: 0 <= i < j < |moves| ==>
      moves[i].piece < moves[j].piece || (moves[i].piece == moves[j].piece && moves[i].to < moves[j].to)
  }

  lemma {:induction false} PieceMovesInOrder(s: State, p: int, bound: nat)
    requires Shaped(s) && 0 <= p < PIECE_COUNT && bound <= BOARD_SIZE
    ensures InOrder(PieceMoves(s, p, bound))
  {
    hide CanReach;
    if bound > 0 {
      PieceMovesInOrder(s, p, bound - 1);
      forall m | m in PieceMoves(s, p, bound - 1)
        ensures m.piece == p && m.to < bound - 1
      {
        PieceMovesMember(s, p, bound - 1, m);
      }
    }
  }

  lemma ConcatenationInOrder(left: seq<Move>, right: seq<Move>)
    requires InOrder(left) && InOrder(right)
    requires forall m, n :: m in left && n in right ==> m.piece < n.piece
    ensures InOrder(left + right)
  {
    var all := left + right;
    forall i, j | 0 <= i < j < |all|
      ensures all[i].piece < all[j].piece || (all[i].piece == all[j].piece && all[i].to < all[j].to)
    {
      if i < |left| <= j {
        assert all[i] in left && all[j] in right;
      }
    }
  }

  lemma {:induction false} MovesOfPiecesInOrder(s: State, bound: nat)
    requires Shaped(s) && bound <= PIECE_COUNT
    ensures InOrder(MovesOfPieces(s, bound))
  {
    hide CanReach, PieceMoves, InOrder;
    if bound > 0 {
      PieceMovesInOrder(s, bound - 1, BOARD_SIZE);
      MovesOfPiecesInOrder(s, bound - 1);
      var earlier, here := MovesOfPieces(s, bound - 1), PieceMoves(s, bound - 1, BOARD_SIZE);
      if s.owner[bound - 1] == s.sideToMove {
        forall m, n | m in earlier && n in here
          ensures m.piece < n.piece
        {
          MovesOfPiecesMember(s, bound - 1, m);
          PieceMovesMember(s, bound - 1, BOARD_SIZE, n);
        }
        ConcatenationInOrder(earlier, here);
      } else {
        assert earlier + [] == earlier;
      }
    } else {
      NothingInOrder();
    }
  }

  lemma NothingInOrder()
    ensures InOrder([])
  {
  }

  lemma {:induction false} AcceptedInOrder(s: State, moves: seq<Move>)
    requires Shaped(s) && InOrder(moves)
    ensures InOrder(Accepted(s, moves))
  {
    hide Apply;
    if moves != [] {
      var n := |moves| - 1;
      AcceptedInOrder(s, moves[..n]);
      forall m | m in Accepted(s, moves[..n])
        ensures m.piece < moves[n].piece || (m.piece == moves[n].piece && m.to < moves[n].to)
      {
        AcceptedMember(s, moves[..n], m);
      }
    }
  }

  /** Both lists go by ascending piece and destination, so nothing is listed twice. */
  lemma GeneratedInOrder(s: State)
    requires Shaped(s)
    ensures InOrder(PseudoLegalMoves(s)) && InOrder(LegalMoves(s))
  {
    hide InOrder, MovesOfPieces, Accepted;
    MovesOfPiecesInOrder(s, PIECE_COUNT);
    NothingInOrder();
    AcceptedInOrder(s, PseudoLegalMoves(s));
  }

  /** No legal move is listed twice. */
  lemma LegalMovesDistinct(s: State)
    requires Shaped(s)
    ensures forall i, j :: 0 <= i < j < |LegalMoves(s)| ==> LegalMoves(s)[i] != LegalMoves(s)[j]
  {
    hide LegalMoves;
    GeneratedInOrder(s);
  }

  // ---------------------------------------------------------------- the generators

  method GeneratePseudoLegalMoves(s: State, t: RuleTables) returns (moves: seq<Move>)
    requires Shaped(s) && ValidTables(t)
    ensures moves == PseudoLegalMoves(s)
  {
    moves := [];
    if s.terminal != Ongoing {
      return;
    }
    for piece := 0 to PIECE_COUNT
      invariant moves == MovesOfPieces(s, piece)
    {
      if s.owner[piece] != s.sideToMove {
        continue;
      }
      var own := GeneratePieceMoves(s, piece, t);
      moves := moves + own;
    }
  }

  /** The inner loops of generation: drops on empty squares, or steps found in the mask's table. */
  method GeneratePieceMoves(s: State, piece: int, t: RuleTables) returns (moves: seq<Move>)
    requires Shaped(s) && ValidTables(t) && 0 <= piece < PIECE_COUNT && s.owner[piece] == s.sideToMove
    ensures moves == PieceMoves(s, piece, BOARD_SIZE)
  {
    moves := [];
    var from := s.pos[piece];
    hide CanReach;
    if IsHandPosition(from) {
      for to := 0 to BOARD_SIZE
        invariant moves == PieceMoves(s, piece, to)
      {
        DropReach(s, piece, to);
        if s.board[to] == EMPTY_SQUARE {
          moves := moves + [Move(piece, from, to)];
        }
      }
      return;
    }
    assert MT.QuantumEntry(t.moves.quantum, s.mask[piece], s.sideToMove, from);
    var destinations := t.moves.quantum[(MT.Code(s.mask[piece]), s.sideToMove, from)];
    for to := 0 to BOARD_SIZE
      invariant moves == PieceMoves(s, piece, to)
    {
      StepReach(s, piece, to);
      if to !in destinations {
        continue;
      }
      var occupant := s.board[to];
      if occupant >= 0 && s.owner[occupant] == s.sideToMove {
        continue;
      }
      moves := moves + [Move(piece, from, to)];
    }
  }

  lemma DropReach(s: State, p: int, to: int)
    requires Shaped(s) && 0 <= p < PIECE_COUNT && 0 <= to < BOARD_SIZE && IsHandPosition(s.pos[p])
    ensures CanReach(s, p, to) <==> s.board[to] == EMPTY_SQUARE
  {
  }

  lemma StepReach(s: State, p: int, to: int)
    requires Shaped(s) && 0 <= p < PIECE_COUNT && 0 <= to < BOARD_SIZE && !IsHandPosition(s.pos[p])
    ensures CanReach(s, p, to) <==>
              && to in MT.MaskTargets(s.mask[p], s.owner[p], s.pos[p])
              && !(s.board[to] >= 0 && s.owner[s.board[to]] == s.owner[p])
  {
  }

  /** Filters candidates through complete transitions on a copy that is reset after each. */
  method FilterLegalCandidates(s: State, candidates: seq<Move>, mode: PropagationMode, t: RuleTables)
    returns (legal: seq<Move>)
    requires Shaped(s) && ValidTables(t)
    ensures legal == Accepted(s, candidates)
  {
    legal := [];
    hide Apply, Shaped;
    var copy := new Position(s);
    var i := 0;
    while i < |candidates|
      invariant 0 <= i <= |candidates| && copy.Snapshot() == s && fresh(copy)
      invariant legal == Accepted(s, candidates[..i])
    {
      var applied, undo := ApplyMove(copy, candidates[i], mode, t);
      assert candidates[..i + 1][..i] == candidates[..i];
      if applied {
        legal := legal + [candidates[i]];
      }
      copy := new Position(s);
      i := i + 1;
    }
    assert candidates[..|candidates|] == candidates;
  }

  method GenerateLegalMoves(s: State, mode: PropagationMode, t: RuleTables) returns (legal: seq<Move>)
    requires Shaped(s) && ValidTables(t)
    ensures legal == LegalMoves(s)
  {
    var candidates := GeneratePseudoLegalMoves(s, t);
    legal := FilterLegalCandidates(s, candidates, mode, t);
  }
}
