/** The heuristic score as a sum over pieces plus immediate-win bonuses, its bounds, and its blindness
    to names, hand slots and orientation.
 */
module Evaluation {
  import opened Animals
  import opened FiniteSets
  import opened States
  import opened Transition
  import opened MoveGeneration
  import opened Symmetry
  import opened Permuting

  const MATE_SCORE := 1_000_000
  const WIN_BONUS := 3500

  function Popcount(m: Mask): int {
    Flag(m.chick) + Flag(m.giraffe) + Flag(m.elephant) + Flag(m.lion) + Flag(m.hen)
  }

  function ValueTotal(m: Mask): int {
    100 * Flag(m.chick) + 320 * Flag(m.giraffe) + 310 * Flag(m.elephant) + 1050 * Flag(m.lion) + 420 * Flag(m.hen)
  }

  /** The mean material value of the candidate forms, zero for an empty mask. */
  function ExpectedValue(m: Mask): int {
    if m.IsEmpty() then 0 else ValueTotal(m) / Popcount(m)
  }

  function Sign(side: Side): int {
    if side.South? then 1 else -1
  }

  predicate AttacksFrom(s: State, square: int, attacker: Side, p: int)
    requires |s.pos| == |s.mask| == |s.owner| == PIECE_COUNT && 0 <= p < PIECE_COUNT
  {
    s.owner[p] == attacker && s.pos[p] < BOARD_SIZE && !Movers(attacker, s.pos[p], square).Meet(s.mask[p]).IsEmpty()
  }

  predicate IsAttacked(s: State, square: int, attacker: Side)
    requires |s.pos| == |s.mask| == |s.owner| == PIECE_COUNT
  {
    exists p :: 0 <= p < PIECE_COUNT && AttacksFrom(s, square, attacker, p)
  }

  function Progress(position: int, side: Side): int {
    if position >= BOARD_SIZE then 0
    else if side.South? then BOARD_HEIGHT - 1 - Row(position) else Row(position)
  }

  /** Safety, progress and custody terms of a Lion candidate, from its owner's point of view. */
  function LionScore(s: State, p: int): int
    requires Shaped(s) && 0 <= p < PIECE_COUNT
  {
    if !s.mask[p].lion then 0
    else
      var sure, onBoard := s.mask[p] == LION_ONLY, s.pos[p] < BOARD_SIZE;
      (if onBoard && IsAttacked(s, s.pos[p], s.owner[p].Opposite()) then if sure then -700 else -180 else 0)
      + (if onBoard then Progress(s.pos[p], s.owner[p]) * (if sure then 90 else 25) else 0)
      + (if sure && !onBoard then -900 else 0)
  }

  function Visits(s: State, p: int): set<int>
    requires Shaped(s) && 0 <= p < PIECE_COUNT
  {
    set to: int | 0 <= to < BOARD_SIZE && CanReach(s, p, to)
  }

  /** Everything one piece contributes to its owner's side of the score. */
  function PieceScore(s: State, p: int): int
    requires Shaped(s) && 0 <= p < PIECE_COUNT
  {
    ExpectedValue(s.mask[p]) + (Popcount(s.mask[p]) - 1) * 12
    + LionScore(s, p) + 80 * Flag(s.mask[p].lion) + 18 * |Visits(s, p)|
  }

  function SignedScores(s: State): (r: seq<int>)
    requires Shaped(s)
    ensures |r| == PIECE_COUNT
  {
    seq(PIECE_COUNT, p requires 0 <= p < PIECE_COUNT => Sign(s.owner[p]) * PieceScore(s, p))
  }

  /** The state with a chosen side to move and no result yet. */
  function Probe(s: State, side: Side): State {
    Rehashed(s.(sideToMove := side, terminal := Ongoing, winner := NO_WINNER))
  }

  predicate WinsFor(s: State, side: Side) {
    (s.terminal == Catch || s.terminal == Try) && s.winner == SideIndex(side)
  }

  ghost predicate WinsAtOnce(s: State, side: Side, m: Move)
  {
    Apply(Probe(s, side), m).Some? && WinsFor(Apply(Probe(s, side), m).value, side)
  }

  /** A capture of a Lion candidate, or a Lion candidate's move to the far rank. */
  predicate CouldWin(s: State, side: Side, m: Move)
    requires Shaped(s)
  {
    && m.Valid()
    && (|| (s.board[m.to] >= 0 && s.mask[s.board[m.to]].lion)
        || (s.mask[m.piece].lion && IsBackRank(m.to, side)))
  }

  /** The reference evaluator tries every pseudo-legal move, the optimized one only what could win. */
  datatype Evaluator = Reference | Optimized

  predicate Tries(ev: Evaluator, s: State, side: Side, m: Move)
    requires Shaped(s)
  {
    m in PseudoLegalMoves(Probe(s, side)) && (ev.Optimized? ==> CouldWin(s, side, m))
  }

  ghost predicate HasImmediateWin(ev: Evaluator, s: State, side: Side)
    requires Shaped(s)
  {
    exists m :: Tries(ev, s, side, m) && WinsAtOnce(s, side, m)
  }

  ghost function SouthScore(ev: Evaluator, s: State): int
    requires Shaped(s)
  {
    Sum(SignedScores(s)) + (if HasImmediateWin(ev, s, South) then WIN_BONUS else 0)
    - (if HasImmediateWin(ev, s, North) then WIN_BONUS else 0)
  }

  /** The result of a finished game as a distance-to-mate score for the side to move. */
  function TerminalScore(s: State, ply: int): int {
    match s.terminal
    case Draw => 0
    case Catch => if s.winner == SideIndex(s.sideToMove) then MATE_SCORE - ply else -MATE_SCORE + ply
    case Try => if s.winner == SideIndex(s.sideToMove) then MATE_SCORE - ply else -MATE_SCORE + ply
    case Illegal => -MATE_SCORE + ply
    case Ongoing => 0
  }

  ghost function StaticScore(ev: Evaluator, s: State): int
    requires Shaped(s)
  {
    if s.terminal != Ongoing then TerminalScore(s, 0) else Sign(s.sideToMove) * SouthScore(ev, s)
  }

  // ---------------------------------------------------------------- bounds

  lemma ExpectedValueBounds(m: Mask)
    ensures 0 <= ExpectedValue(m) <= 1050 && 0 <= Popcount(m) <= 5
  {
    if !m.IsEmpty() {
      assert ValueTotal(m) <= 1050 * Popcount(m);
    }
  }

  lemma VisitsBound(s: State, p: int)
    requires Shaped(s) && 0 <= p < PIECE_COUNT
    ensures |Visits(s, p)| <= BOARD_SIZE
  {
    hide CanReach, Range;
    SubsetSize(Visits(s, p), Range(0, BOARD_SIZE));
  }

  lemma LionScoreBounds(s: State, p: int)
    requires Shaped(s) && 0 <= p < PIECE_COUNT
    ensures -900 <= LionScore(s, p) <= 270
  {
    hide IsAttacked;
  }

  lemma PieceScoreBounds(s: State, p: int)
    requires Shaped(s) && 0 <= p < PIECE_COUNT
    ensures -1000 <= PieceScore(s, p) <= 2000
  {
    ExpectedValueBounds(s.mask[p]);
    VisitsBound(s, p);
    LionScoreBounds(s, p);
    hide ExpectedValue, Popcount, Visits, LionScore;
  }

  lemma {:induction false} SumBounds(a: seq<int>, bound: int)
    requires forall k :: 0 <= k < |a| ==> -bound <= a[k] <= bound
    ensures -bound * |a| <= Sum(a) <= bound * |a|
  {
    if a != [] {
      SumBounds(a[..|a| - 1], bound);
    }
  }

  /** Heuristic scores never come near a mate score. */
  lemma EvaluationBounds(ev: Evaluator, s: State)
    requires Shaped(s) && s.terminal == Ongoing
    ensures -23_000 <= StaticScore(ev, s) <= 23_000
  {
    hide PieceScore, HasImmediateWin, Sum;
    forall p | 0 <= p < PIECE_COUNT
      ensures -2000 <= SignedScores(s)[p] <= 2000
    {
      PieceScoreBounds(s, p);
      assert Sign(s.owner[p]) in {-1, 1};
    }
    SumBounds(SignedScores(s), 2000);
  }

  // ---------------------------------------------------------------- related positions score alike

  lemma AttackMatches(i: Iso, s: State, t: State, square: int, attacker: Side)
    requires PiecesMatch(i, s, t) && IsBoardSquare(square)
    ensures IsAttacked(s, square, attacker) ==> IsAttacked(t, i.Square(square), i.Seat(attacker))
  {
    if IsAttacked(s, square, attacker) {
      var p :| 0 <= p < PIECE_COUNT && AttacksFrom(s, square, attacker, p);
      assert PieceMatches(i, s, t, p);
      TurnedSteps(i, attacker, s.pos[p], square);
      hide Movers;
      assert AttacksFrom(t, i.Square(square), i.Seat(attacker), i.to[p]);
    }
  }

  lemma SameAttacks(i: Iso, s: State, t: State, square: int, attacker: Side)
    requires PiecesMatch(i, s, t) && IsBoardSquare(square)
    ensures IsAttacked(s, square, attacker) <==> IsAttacked(t, i.Square(square), i.Seat(attacker))
  {
    AttackMatches(i, s, t, square, attacker);
    InverseMatches(i, s, t);
    AttackMatches(i.Inverse(), t, s, i.Square(square), i.Seat(attacker));
    hide PiecesMatch, IsAttacked;
  }

  lemma LionScoreMatches(i: Iso, s: State, t: State, p: int)
    requires PiecesMatch(i, s, t) && 0 <= p < PIECE_COUNT
    ensures LionScore(t, i.to[p]) == LionScore(s, p)
  {
    assert PieceMatches(i, s, t, p);
    if IsBoardSquare(s.pos[p]) {
      SameAttacks(i, s, t, s.pos[p], s.owner[p].Opposite());
      assert Row(11 - s.pos[p]) == 3 - Row(s.pos[p]);
      hide Row;
    }
    hide IsAttacked, PiecesMatch;
  }

  lemma VisitMatches(i: Iso, s: State, t: State, p: int, to: int)
    requires PiecesMatch(i, s, t) && Agree(s) && Agree(t) && 0 <= p < PIECE_COUNT && 0 <= to < BOARD_SIZE
    ensures CanReach(s, p, to) <==> CanReach(t, i.to[p], i.Square(to))
  {
    assert PieceMatches(i, s, t, p);
    MatchingBoards(i, s, t, to);
    if s.board[to] >= 0 {
      assert PieceMatches(i, s, t, s.board[to]);
    }
    if IsBoardSquare(s.pos[p]) {
      TurnedSteps(i, s.owner[p], s.pos[p], to);
    }
    hide Movers, Agree, PiecesMatch;
  }

  lemma ImageNoLarger(from: set<int>, to: set<int>, i: Iso)
    requires forall x :: x in from ==> IsBoardSquare(x) && i.Square(x) in to
    ensures |from| <= |to|
  {
    var squares := seq(BOARD_SIZE, x => i.Square(x));
    var image := set x | x in from :: squares[x];
    ImageSize(squares, from, image);
    SubsetSize(image, to);
  }

  lemma VisitsMatch(i: Iso, s: State, t: State, p: int)
    requires PiecesMatch(i, s, t) && Agree(s) && Agree(t) && 0 <= p < PIECE_COUNT
    ensures |Visits(t, i.to[p])| == |Visits(s, p)|
  {
    hide CanReach, Agree, PieceMatches;
    InverseMatches(i, s, t);
    forall x | 0 <= x < BOARD_SIZE
      ensures x in Visits(s, p) <==> i.Square(x) in Visits(t, i.to[p])
      ensures x in Visits(t, i.to[p]) <==> i.Square(x) in Visits(s, p)
    {
      VisitMatches(i, s, t, p, x);
      VisitMatches(i, s, t, p, i.Square(x));
    }
    ImageNoLarger(Visits(s, p), Visits(t, i.to[p]), i);
    ImageNoLarger(Visits(t, i.to[p]), Visits(s, p), i);
  }

  lemma PieceScoreMatches(i: Iso, s: State, t: State, p: int)
    requires PiecesMatch(i, s, t) && Agree(s) && Agree(t) && 0 <= p < PIECE_COUNT
    ensures PieceScore(t, i.to[p]) == PieceScore(s, p) && t.owner[i.to[p]] == i.Seat(s.owner[p])
  {
    LionScoreMatches(i, s, t, p);
    VisitsMatch(i, s, t, p);
    assert PieceMatches(i, s, t, p);
    hide LionScore, Visits, ExpectedValue, Popcount, Agree;
  }

  function Scaled(a: seq<int>, k: int): (r: seq<int>)
    ensures |r| == |a|
  {
    seq(|a|, j requires 0 <= j < |a| => k * a[j])
  }

  lemma {:induction false} SumScaled(a: seq<int>, k: int)
    ensures Sum(Scaled(a, k)) == k * Sum(a)
  {
    if a != [] {
      var n := |a| - 1;
      SumScaled(a[..n], k);
      assert Scaled(a, k)[..n] == Scaled(a[..n], k);
    }
  }

  /** Names and slots leave the signed sum alone; turning the board negates it. */
  lemma SignedScoresMatch(i: Iso, s: State, t: State)
    requires PiecesMatch(i, s, t) && Agree(s) && Agree(t)
    ensures Sum(SignedScores(t)) == (if i.flip then -1 else 1) * Sum(SignedScores(s))
  {
    var k := if i.flip then -1 else 1;
    var a, b := Scaled(SignedScores(s), k), SignedScores(t);
    forall p | 0 <= p < PIECE_COUNT
      ensures b[i.to[p]] == a[p]
    {
      PieceScoreMatches(i, s, t, p);
      hide PieceScore, Agree;
    }
    hide SignedScores, PieceMatches, Agree;
    RearrangedMultisets(a, b, i.to, i.back);
    SameMultisetSameSum(a, b);
    SumScaled(SignedScores(s), k);
  }

  lemma ProbesRelated(i: Iso, s: State, t: State, side: Side)
    requires PiecesMatch(i, s, t) && Agree(s) && Agree(t) && s.turn == t.turn
    ensures Related(i, Probe(s, side), Probe(t, i.Seat(side)))
  {
    SamePieces(i, s, t, Probe(s, side), Probe(t, i.Seat(side)));
    hide PiecesMatch, Agree;
  }

  lemma CouldWinMatches(i: Iso, s: State, t: State, side: Side, m: Move)
    requires PiecesMatch(i, s, t) && Agree(s) && Agree(t) && m.Valid() && 0 <= i.to[m.piece] < PIECE_COUNT
    requires CouldWin(s, side, m)
    ensures CouldWin(t, i.Seat(side), Move(i.to[m.piece], t.pos[i.to[m.piece]], i.Square(m.to)))
  {
    hide IsBackRank, Movers;
    assert PieceMatches(i, s, t, m.piece);
    MatchingBoards(i, s, t, m.to);
    if s.board[m.to] >= 0 {
      assert PieceMatches(i, s, t, s.board[m.to]);
    }
    TurnedSteps(i, side, m.to, m.to);
  }

  lemma TryCarries(ev: Evaluator, i: Iso, s: State, t: State, side: Side, m: Move) returns (n: Move)
    requires PiecesMatch(i, s, t) && Agree(s) && Agree(t) && s.turn == t.turn
    requires Tries(ev, s, side, m) && WinsAtOnce(s, side, m)
    ensures Tries(ev, t, i.Seat(side), n) && WinsAtOnce(t, i.Seat(side), n)
  {
    hide Apply, CanReach, PiecesMatch, CouldWin, PseudoLegalMoves, Agree;
    ProbesRelated(i, s, t, side);
    ProbesAreShaped(i, s, t, side);
    var s', t' := Probe(s, side), Probe(t, i.Seat(side));
    PseudoLegalMember(s', m);
    MatchingReach(i, s', t', m);
    StepMatches(i, s', t', m);
    n := Image(i, t', m);
    PseudoLegalMember(t', n);
    WinnersMatch(i, Apply(s', m).value, Apply(t', n).value, side);
    if ev.Optimized? {
      CouldWinMatches(i, s, t, side, m);
    }
  }

  lemma ProbesAreShaped(i: Iso, s: State, t: State, side: Side)
    requires PiecesMatch(i, s, t) && Agree(s) && Agree(t)
    ensures i.Valid() && Shaped(s) && Shaped(t) && Shaped(Probe(s, side)) && Shaped(Probe(t, i.Seat(side)))
    ensures Agree(Probe(s, side)) && Agree(Probe(t, i.Seat(side)))
  {
  }

  lemma WinCarries(ev: Evaluator, i: Iso, s: State, t: State, side: Side)
    requires PiecesMatch(i, s, t) && Agree(s) && Agree(t) && s.turn == t.turn
    ensures Shaped(s) && Shaped(t)
    ensures HasImmediateWin(ev, s, side) ==> HasImmediateWin(ev, t, i.Seat(side))
  {
    hide PiecesMatch, Agree, Tries, WinsAtOnce;
    ProbesAreShaped(i, s, t, side);
    if HasImmediateWin(ev, s, side) {
      var m :| Tries(ev, s, side, m) && WinsAtOnce(s, side, m);
      var n := TryCarries(ev, i, s, t, side, m);
    }
  }

  lemma WinnersMatch(i: Iso, s: State, t: State, side: Side)
    requires Related(i, s, t) && WinsFor(s, side)
    ensures WinsFor(t, i.Seat(side))
  {
    hide PiecesMatch, Agree;
  }

  lemma ImmediateWinsMatch(ev: Evaluator, i: Iso, s: State, t: State, side: Side)
    requires PiecesMatch(i, s, t) && Agree(s) && Agree(t) && s.turn == t.turn
    ensures HasImmediateWin(ev, s, side) <==> HasImmediateWin(ev, t, i.Seat(side))
  {
    WinCarries(ev, i, s, t, side);
    InverseMatches(i, s, t);
    WinCarries(ev, i.Inverse(), t, s, i.Seat(side));
    hide PiecesMatch, Agree, HasImmediateWin;
  }

  lemma TerminalScoreMatches(i: Iso, s: State, t: State, ply: int)
    requires Related(i, s, t)
    ensures TerminalScore(s, ply) == TerminalScore(t, ply)
  {
    hide PiecesMatch, Agree;
    assert s.sideToMove.South? || s.sideToMove.North?;
  }

  lemma SouthScoresMatch(ev: Evaluator, i: Iso, s: State, t: State)
    requires PiecesMatch(i, s, t) && Agree(s) && Agree(t) && s.turn == t.turn
    ensures SouthScore(ev, t) == (if i.flip then -1 else 1) * SouthScore(ev, s)
  {
    hide PieceMatches, HasImmediateWin, SignedScores, Sum;
    SignedScoresMatch(i, s, t);
    ImmediateWinsMatch(ev, i, s, t, South);
    ImmediateWinsMatch(ev, i, s, t, North);
  }

  /** Related positions have one evaluation, seen by whoever is to move. */
  lemma EvaluationMatches(ev: Evaluator, i: Iso, s: State, t: State)
    requires Related(i, s, t)
    ensures StaticScore(ev, s) == StaticScore(ev, t)
  {
    hide SouthScore, TerminalScore, PiecesMatch;
    if s.terminal != Ongoing {
      TerminalScoreMatches(i, s, t, 0);
    } else {
      SouthScoresMatch(ev, i, s, t);
      assert s.sideToMove.South? || s.sideToMove.North?;
    }
  }
}
