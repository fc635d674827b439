/** What the heuristic score rewards, told by comparing two positions: mobility is the number of moves listed,
    and once that and the win bonuses are set aside the score changes by what one changed piece is worth.
 */
module ScoreTerms {
  import opened Animals
  import opened States
  import opened Transition
  import opened MoveGeneration
  import opened Invariants
  import opened Permuting
  import opened Evaluation
  import opened Evaluators

  // ---------------------------------------------------------------- mobility is the number of moves

  lemma {:induction false} PieceMovesCount(s: State, p: int, bound: nat)
    requires Shaped(s) && 0 <= p < PIECE_COUNT && bound <= BOARD_SIZE
    ensures |PieceMoves(s, p, bound)| == |VisitsBelow(s, p, bound)|
  {
    hide CanReach, VisitsBelow;
    if bound > 0 {
      PieceMovesCount(s, p, bound - 1);
      VisitsGrow(s, p, bound - 1);
    } else {
      VisitsGrow(s, p, 0);
    }
  }

  lemma SameVisits(s: State, side: Side, p: int)
    requires Shaped(s) && 0 <= p < PIECE_COUNT
    ensures Shaped(Probe(s, side)) && Visits(Probe(s, side), p) == Visits(s, p)
  {
    hide Movers;
    assert forall to :: 0 <= to < BOARD_SIZE ==> CanReach(Probe(s, side), p, to) == CanReach(s, p, to);
  }

  lemma {:induction false} MovesCount(s: State, side: Side, n: nat)
    requires Shaped(s) && n <= PIECE_COUNT
    ensures Shaped(Probe(s, side)) && |MovesOfPieces(Probe(s, side), n)| == MobilityCount(s, side, n)
  {
    hide Visits, PieceMoves, VisitsBelow;
    if n > 0 {
      MovesCount(s, side, n - 1);
      SameVisits(s, side, n - 1);
      PieceMovesCount(Probe(s, side), n - 1, BOARD_SIZE);
      VisitsGrow(Probe(s, side), n - 1, 0);
    }
  }

  /** A side's mobility is the number of moves that would be listed for it, were it on turn. */
  lemma MobilityIsMoveCount(s: State, side: Side)
    requires Shaped(s)
    ensures Shaped(Probe(s, side)) && MobilityCount(s, side, PIECE_COUNT) == |PseudoLegalMoves(Probe(s, side))|
  {
    MovesCount(s, side, PIECE_COUNT);
  }

  // ---------------------------------------------------------------- threats are moves

  /** The opponent of a piece's owner, were it on turn, would have a move listed onto the piece's square. */
  ghost predicate Threatened(s: State, p: int)
    requires Shaped(s) && 0 <= p < PIECE_COUNT
  {
    exists m :: m in PseudoLegalMoves(Probe(s, s.owner[p].Opposite())) && m.to == s.pos[p]
  }

  lemma ThreatIsAttack(s: State, p: int)
    requires Agree(s) && 0 <= p < PIECE_COUNT && s.pos[p] < BOARD_SIZE
    ensures Threatened(s, p) <==> IsAttacked(s, s.pos[p], s.owner[p].Opposite())
  {
    hide Movers, PseudoLegalMoves;
    var attacker := s.owner[p].Opposite();
    var probe := Probe(s, attacker);
    if m :| m in PseudoLegalMoves(probe) && m.to == s.pos[p] {
      PseudoLegalMember(probe, m);
      assert AttacksFrom(s, s.pos[p], attacker, m.piece);
    }
    if q :| 0 <= q < PIECE_COUNT && AttacksFrom(s, s.pos[p], attacker, q) {
      PseudoLegalMember(probe, Move(q, s.pos[q], s.pos[p]));
    }
  }

  // ---------------------------------------------------------------- immediate wins are transitions

  /** A side has an immediate win exactly when some transition, were it on turn, ends the game in its favour. */
  lemma WinsInWords(s: State, side: Side)
    requires Agree(s)
    ensures HasImmediateWin(Reference, s, side) <==>
              exists m, t :: Apply(Probe(s, side), m) == Some(t) && WinsFor(t, side)
  {
    hide Apply, PseudoLegalMoves, WinsFor;
    if m :| Tries(Reference, s, side, m) && WinsAtOnce(s, side, m) {
      var t := Apply(Probe(s, side), m).value;
    }
    if m, t :| Apply(Probe(s, side), m) == Some(t) && WinsFor(t, side) {
      OnlyAgreeingMoves(s, side, m, t);
      assert Tries(Reference, s, side, m) && WinsAtOnce(s, side, m);
    }
  }

  /** The optimized evaluator sees those that capture a possible Lion or take one to the far rank. */
  lemma FilteredWinsInWords(s: State, side: Side)
    requires Agree(s)
    ensures HasImmediateWin(Optimized, s, side) <==>
              exists m, t :: Apply(Probe(s, side), m) == Some(t) && WinsFor(t, side) && m.Valid()
                && (|| (s.board[m.to] >= 0 && s.mask[s.board[m.to]].lion)
                    || (s.mask[m.piece].lion && m.to in if side.South? then {0, 1, 2} else {9, 10, 11}))
  {
    hide Apply, PseudoLegalMoves, WinsFor, IsBackRank;
    if m :| Tries(Optimized, s, side, m) && WinsAtOnce(s, side, m) {
      var t := Apply(Probe(s, side), m).value;
      BackRankSquares(m.to, side);
    }
    if m, t :| Apply(Probe(s, side), m) == Some(t) && WinsFor(t, side) && m.Valid()
               && (|| (s.board[m.to] >= 0 && s.mask[s.board[m.to]].lion)
                   || (s.mask[m.piece].lion && m.to in if side.South? then {0, 1, 2} else {9, 10, 11})) {
      OnlyAgreeingMoves(s, side, m, t);
      BackRankSquares(m.to, side);
      assert Tries(Optimized, s, side, m) && WinsAtOnce(s, side, m);
    }
  }

  lemma BackRankSquares(square: int, side: Side)
    requires 0 <= square < 12
    ensures IsBackRank(square, side) <==> square in if side.South? then {0, 1, 2} else {9, 10, 11}
  {
  }

  lemma OnlyAgreeingMoves(s: State, side: Side, m: Move, t: State)
    requires Agree(s) && Apply(Probe(s, side), m) == Some(t)
    ensures m in PseudoLegalMoves(Probe(s, side)) && m.Valid()
  {
    hide PseudoLegalMoves, CanReach;
    OnlyPseudoLegalMoves(Probe(s, side), m);
    PseudoLegalMember(Probe(s, side), m);
  }

  // ---------------------------------------------------------------- what is left of the score

  /** The score South sees, without 18 for every listed move more than North's and 3500 for an immediate win. */
  ghost function Standing(ev: Evaluator, s: State): int
    requires Shaped(s)
  {
    (if s.sideToMove.South? then StaticScore(ev, s) else -StaticScore(ev, s))
    - 18 * (|PseudoLegalMoves(Probe(s, South))| - |PseudoLegalMoves(Probe(s, North))|)
    - 3500 * (Flag(HasImmediateWin(ev, s, South)) - Flag(HasImmediateWin(ev, s, North)))
  }

  /** One piece's part of it. */
  function Part(s: State, p: int): int
    requires Shaped(s) && 0 <= p < PIECE_COUNT
  {
    Sign(s.owner[p])
    * (ExpectedValue(s.mask[p]) + (Popcount(s.mask[p]) - 1) * 12 + LionScore(s, p) + 80 * Flag(s.mask[p].lion))
  }

  function PartsBelow(s: State, n: nat): int
    requires Shaped(s) && n <= PIECE_COUNT
  {
    if n == 0 then 0 else PartsBelow(s, n - 1) + Part(s, n - 1)
  }

  lemma {:induction false} PartsAreComponents(s: State, n: nat)
    requires Shaped(s) && n <= PIECE_COUNT
    ensures PartsBelow(s, n) ==
              MaterialSum(s, n) + LionSum(s, n) + 80 * (CandidateCount(s, South, n) - CandidateCount(s, North, n))
  {
    hide LionScore, ExpectedValue, Popcount;
    if n > 0 {
      PartsAreComponents(s, n - 1);
      assert s.owner[n - 1].South? || s.owner[n - 1].North?;
    }
  }

  lemma StandingIsParts(ev: Evaluator, s: State)
    requires Shaped(s) && s.terminal == Ongoing
    ensures Standing(ev, s) == PartsBelow(s, PIECE_COUNT)
  {
    hide HasImmediateWin, MaterialSum, LionSum, CandidateCount, MobilityCount, SignedScores, PartsBelow,
         PseudoLegalMoves, Sum;
    ScoreFromComponents(s);
    PartsAreComponents(s, PIECE_COUNT);
    MobilityIsMoveCount(s, South);
    MobilityIsMoveCount(s, North);
  }

  /** Two ongoing positions whose other pieces have the same owners and forms and whose other Lion candidates
      stand where they stood, threatened or not as before. */
  ghost predicate DifferInOne(s: State, t: State, p: int)
  {
    && Agree(s) && Agree(t) && s.terminal == Ongoing && t.terminal == Ongoing && 0 <= p < PIECE_COUNT
    && forall q :: 0 <= q < PIECE_COUNT && q != p ==>
         && t.owner[q] == s.owner[q] && t.mask[q] == s.mask[q]
         && (s.mask[q].lion ==> t.pos[q] == s.pos[q] && (Threatened(t, q) <==> Threatened(s, q)))
  }

  lemma SamePart(s: State, t: State, p: int, q: int)
    requires DifferInOne(s, t, p) && 0 <= q < PIECE_COUNT && q != p
    ensures Shaped(s) && Shaped(t) && Part(t, q) == Part(s, q)
  {
    hide Threatened, IsAttacked, ExpectedValue, Popcount, Row;
    if s.mask[q].lion && s.pos[q] < BOARD_SIZE {
      ThreatIsAttack(s, q);
      ThreatIsAttack(t, q);
    }
  }

  lemma {:induction false} PartsDiffer(s: State, t: State, p: int, n: nat)
    requires DifferInOne(s, t, p) && n <= PIECE_COUNT
    ensures Shaped(s) && Shaped(t)
    ensures PartsBelow(t, n) - PartsBelow(s, n) == if n > p then Part(t, p) - Part(s, p) else 0
  {
    hide Part, Threatened;
    if n > 0 {
      PartsDiffer(s, t, p, n - 1);
      if n - 1 != p {
        SamePart(s, t, p, n - 1);
      }
    }
  }

  lemma StandingsDiffer(ev: Evaluator, s: State, t: State, p: int)
    requires DifferInOne(s, t, p)
    ensures Shaped(s) && Shaped(t) && Standing(ev, t) - Standing(ev, s) == Part(t, p) - Part(s, p)
  {
    hide Part, Threatened, Standing, PartsBelow;
    PartsDiffer(s, t, p, PIECE_COUNT);
    StandingIsParts(ev, s);
    StandingIsParts(ev, t);
  }

  // ---------------------------------------------------------------- what one piece is worth

  /** A Lion candidate on the board: each row towards the far rank is worth 90 to its owner if it is certain and
      25 otherwise, and a threat costs 700 or 180. */
  lemma LionOnBoard(ev: Evaluator, s: State, t: State, p: int)
    requires DifferInOne(s, t, p) && Shaped(s) && Shaped(t)
    requires t.owner[p] == s.owner[p] && t.mask[p] == s.mask[p] && s.mask[p].lion && s.pos[p] < 12 && t.pos[p] < 12
    ensures var certain := s.mask[p] == Mask(false, false, false, true, false);
            var rows := if s.owner[p].South? then s.pos[p] / 3 - t.pos[p] / 3 else t.pos[p] / 3 - s.pos[p] / 3;
            var threats := Flag(Threatened(t, p)) - Flag(Threatened(s, p));
            var gain := if certain then 90 * rows - 700 * threats else 25 * rows - 180 * threats;
            Standing(ev, t) - Standing(ev, s) == if s.owner[p].South? then gain else -gain
  {
    StandingsDiffer(ev, s, t, p);
    ThreatIsAttack(s, p);
    ThreatIsAttack(t, p);
    hide Standing, Threatened, IsAttacked, DifferInOne, ExpectedValue, Popcount;
  }

  /** A Lion in hand: a certain one costs its holder 900 against one safe at home, an uncertain one nothing. */
  lemma LionInHand(ev: Evaluator, s: State, t: State, p: int)
    requires DifferInOne(s, t, p) && Shaped(s) && Shaped(t)
    requires t.owner[p] == s.owner[p] && t.mask[p] == s.mask[p] && s.mask[p].lion && t.pos[p] >= 12
    requires !Threatened(s, p) && s.pos[p] in if s.owner[p].South? then {9, 10, 11} else {0, 1, 2}
    ensures var loss := if s.mask[p] == Mask(false, false, false, true, false) then 900 else 0;
            Standing(ev, t) - Standing(ev, s) == if s.owner[p].South? then -loss else loss
  {
    StandingsDiffer(ev, s, t, p);
    CalmScore(s, p);
    HandScore(t, p);
    hide Standing, Threatened, LionScore, DifferInOne, ExpectedValue, Popcount;
  }

  lemma HandScore(s: State, p: int)
    requires Shaped(s) && 0 <= p < PIECE_COUNT && s.mask[p].lion && s.pos[p] >= 12
    ensures LionScore(s, p) == if s.mask[p] == Mask(false, false, false, true, false) then -900 else 0
  {
    hide IsAttacked, Progress;
  }

  /** No Lion terms: no Lion candidate, or one safe at home, or an uncertain one in hand. */
  ghost predicate Calm(s: State, p: int)
    requires Shaped(s) && 0 <= p < PIECE_COUNT
  {
    || !s.mask[p].lion
    || (s.pos[p] >= 12 && s.mask[p] != Mask(false, false, false, true, false))
    || ((s.pos[p] in if s.owner[p].South? then {9, 10, 11} else {0, 1, 2}) && !Threatened(s, p))
  }

  /** A piece that changes forms or owner: its owner has the mean value of its forms, 12 for every form beyond
      the first, and 80 if it may be the Lion. */
  lemma FormsAndOwner(ev: Evaluator, s: State, t: State, p: int)
    requires DifferInOne(s, t, p) && Shaped(s) && Shaped(t) && Calm(s, p) && Calm(t, p)
    ensures var before := ExpectedValue(s.mask[p]) + 12 * (Popcount(s.mask[p]) - 1) + 80 * Flag(s.mask[p].lion);
            var after := ExpectedValue(t.mask[p]) + 12 * (Popcount(t.mask[p]) - 1) + 80 * Flag(t.mask[p].lion);
            Standing(ev, t) - Standing(ev, s) ==
              (if t.owner[p].South? then after else -after) - (if s.owner[p].South? then before else -before)
  {
    StandingsDiffer(ev, s, t, p);
    CalmScore(s, p);
    CalmScore(t, p);
    hide Standing, Calm, LionScore, DifferInOne, ExpectedValue, Popcount;
  }

  lemma CalmScore(s: State, p: int)
    requires Agree(s) && 0 <= p < PIECE_COUNT && Calm(s, p)
    ensures LionScore(s, p) == 0
  {
    if s.pos[p] < 12 {
      ThreatIsAttack(s, p);
    }
    hide Threatened, IsAttacked;
  }

  /** The mean, rounded down, of 100 for a Chick, 320 for a Giraffe, 310 for an Elephant, 1050 for a Lion and 420
      for a Hen, over the forms there are. */
  lemma MeanOfForms(m: Mask)
    requires !m.IsEmpty()
    ensures var n := |set form: Animal | m.Has(form)|;
            var total := 100 * Flag(m.chick) + 320 * Flag(m.giraffe) + 310 * Flag(m.elephant) + 1050 * Flag(m.lion)
                         + 420 * Flag(m.hen);
            Popcount(m) == n && n * ExpectedValue(m) <= total < n * (ExpectedValue(m) + 1)
  {
    FormsInSet(m);
  }

  lemma FormsInSet(m: Mask)
    ensures |set form: Animal | m.Has(form)| == Popcount(m)
  {
    var forms := CollectForms(m);
    hide Popcount;
    assert (set form: Animal | m.Has(form)) == forms;
  }

  lemma CollectForms(m: Mask) returns (forms: set<Animal>)
    ensures |forms| == Popcount(m)
    ensures forall form :: form in forms <==> m.Has(form)
  {
    hide With;
    var a := With({}, Chick, m.chick);
    var b := With(a, Giraffe, m.giraffe);
    var c := With(b, Elephant, m.elephant);
    var d := With(c, Lion, m.lion);
    forms := With(d, Hen, m.hen);
    forall form: Animal
      ensures form in forms <==> m.Has(form)
    {
      match form
      case Chick => case Giraffe => case Elephant => case Lion => case Hen =>
    }
  }

  function With(forms: set<Animal>, form: Animal, present: bool): (r: set<Animal>)
    requires form !in forms
    ensures |r| == |forms| + Flag(present)
    ensures forall x :: x in r <==> x in forms || (present && x == form)
  {
    if present then forms + {form} else forms
  }
}
