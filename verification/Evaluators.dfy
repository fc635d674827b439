/** The two evaluators. The reference one scans squares and tries every pseudo-legal move; the optimized
    one uses tables, occupancy and attack sets, and tries only moves that could win. Both compute the
    same score wherever Lion candidates are in custody.
 */
module Evaluators {
  import opened Animals
  import opened States
  import opened Transition
  import opened Propagators
  import opened Rules
  import opened MoveGeneration
  import opened Invariants
  import opened Permuting
  import opened Propagation
  import opened Evaluation
  import MT = MoveTables

  // ---------------------------------------------------------------- the score as running sums

  function MaterialSum(s: State, n: nat): int
    requires Shaped(s) && n <= PIECE_COUNT
  {
    if n == 0 then 0
    else MaterialSum(s, n - 1)
         + Sign(s.owner[n - 1]) * (ExpectedValue(s.mask[n - 1]) + (Popcount(s.mask[n - 1]) - 1) * 12)
  }

  function LionSum(s: State, n: nat): int
    requires Shaped(s) && n <= PIECE_COUNT
  {
    if n == 0 then 0 else LionSum(s, n - 1) + Sign(s.owner[n - 1]) * LionScore(s, n - 1)
  }

  function CandidateCount(s: State, side: Side, n: nat): int
    requires Shaped(s) && n <= PIECE_COUNT
  {
    if n == 0 then 0
    else CandidateCount(s, side, n - 1) + if s.owner[n - 1] == side && s.mask[n - 1].lion then 1 else 0
  }

  function MobilityCount(s: State, side: Side, n: nat): int
    requires Shaped(s) && n <= PIECE_COUNT
  {
    if n == 0 then 0
    else MobilityCount(s, side, n - 1) + if s.owner[n - 1] == side then |Visits(s, n - 1)| else 0
  }

  /** The components each evaluator accumulates add up to the signed sum. */
  lemma {:induction false} ComponentsAddUp(s: State, n: nat)
    requires Shaped(s) && n <= PIECE_COUNT
    ensures Sum(SignedScores(s)[..n]) ==
              MaterialSum(s, n) + LionSum(s, n) + 80 * (CandidateCount(s, South, n) - CandidateCount(s, North, n))
              + 18 * (MobilityCount(s, South, n) - MobilityCount(s, North, n))
  {
    if n > 0 {
      ComponentsAddUp(s, n - 1);
      assert SignedScores(s)[..n][..n - 1] == SignedScores(s)[..n - 1];
      hide LionScore, Visits, ExpectedValue, Popcount;
      assert s.owner[n - 1].South? || s.owner[n - 1].North?;
    }
  }

  lemma ScoreFromComponents(s: State)
    requires Shaped(s)
    ensures Sum(SignedScores(s)) ==
              MaterialSum(s, PIECE_COUNT) + LionSum(s, PIECE_COUNT)
              + 80 * (CandidateCount(s, South, PIECE_COUNT) - CandidateCount(s, North, PIECE_COUNT))
              + 18 * (MobilityCount(s, South, PIECE_COUNT) - MobilityCount(s, North, PIECE_COUNT))
  {
    ComponentsAddUp(s, PIECE_COUNT);
    assert SignedScores(s)[..PIECE_COUNT] == SignedScores(s);
  }

  // ---------------------------------------------------------------- counting bits

  function ClearLowest(m: Mask): Mask {
    if m.chick then m.(chick := false) else if m.giraffe then m.(giraffe := false)
    else if m.elephant then m.(elephant := false) else if m.lion then m.(lion := false) else m.(hen := false)
  }

  lemma PopcountBounds(m: Mask)
    ensures Popcount(m) >= 0
  {
  }

  lemma ClearedOnce(m: Mask)
    requires !m.IsEmpty()
    ensures Popcount(ClearLowest(m)) == Popcount(m) - 1
  {
  }

  lemma NoFormsCounted(m: Mask)
    requires m.IsEmpty()
    ensures Popcount(m) == 0
  {
  }

  /** Clears the lowest set bit until none is left. */
  method CountForms(mask: Mask) returns (count: int)
    ensures count == Popcount(mask)
  {
    hide Popcount, ClearLowest;
    count := 0;
    var rest := mask;
    PopcountBounds(rest);
    while !rest.IsEmpty()
      invariant count + Popcount(rest) == Popcount(mask)
      invariant Popcount(rest) >= 0
      decreases Popcount(rest)
    {
      ClearedOnce(rest);
      PopcountBounds(ClearLowest(rest));
      rest := ClearLowest(rest);
      count := count + 1;
    }
    NoFormsCounted(rest);
  }

  method CountSquares(squares: set<int>) returns (count: int)
    ensures count == |squares|
  {
    count := 0;
    var rest := squares;
    while exists x :: x in rest
      invariant count + |rest| == |squares|
      decreases |rest|
    {
      var lowest :| lowest in rest;
      rest := rest - {lowest};
      count := count + 1;
    }
  }

  const FORM_VALUES := [100, 320, 310, 1050, 420]

  function TotalBelow(m: Mask, n: nat): int
    requires n <= 5
  {
    if n == 0 then 0 else TotalBelow(m, n - 1) + if m.Has(MT.ALL_FORMS[n - 1]) then FORM_VALUES[n - 1] else 0
  }

  function CountBelow(m: Mask, n: nat): int
    requires n <= 5
  {
    if n == 0 then 0 else CountBelow(m, n - 1) + if m.Has(MT.ALL_FORMS[n - 1]) then 1 else 0
  }

  lemma AllFormsCounted(m: Mask)
    ensures TotalBelow(m, 5) == ValueTotal(m) && CountBelow(m, 5) == Popcount(m)
  {
    assert TotalBelow(m, 1) == 100 * Flag(m.chick) && CountBelow(m, 1) == Flag(m.chick);
    assert TotalBelow(m, 2) == TotalBelow(m, 1) + 320 * Flag(m.giraffe);
    assert CountBelow(m, 2) == CountBelow(m, 1) + Flag(m.giraffe);
    assert TotalBelow(m, 3) == TotalBelow(m, 2) + 310 * Flag(m.elephant);
    assert CountBelow(m, 3) == CountBelow(m, 2) + Flag(m.elephant);
    assert TotalBelow(m, 4) == TotalBelow(m, 3) + 1050 * Flag(m.lion);
    assert CountBelow(m, 4) == CountBelow(m, 3) + Flag(m.lion);
  }

  method MeanValue(mask: Mask) returns (value: int)
    ensures value == ExpectedValue(mask)
  {
    var total, count := 0, 0;
    for i := 0 to 5
      invariant total == TotalBelow(mask, i) && count == CountBelow(mask, i)
    {
      if mask.Has(MT.ALL_FORMS[i]) {
        total := total + FORM_VALUES[i];
        count := count + 1;
      }
    }
    AllFormsCounted(mask);
    value := if count == 0 then 0 else total / count;
  }

  /** Popcount and mean value of every mask, indexed by its code. */
  datatype EvalTables = EvalTables(popcounts: seq<int>, values: seq<int>)

  ghost predicate ValidEvalTables(e: EvalTables)
  {
    && |e.popcounts| == |e.values| == MT.MASK_COUNT
    && forall c :: 0 <= c < MT.MASK_COUNT ==>
         e.popcounts[c] == Popcount(MT.MaskOf(c)) && e.values[c] == ExpectedValue(MT.MaskOf(c))
  }

  method BuildEvalTables() returns (e: EvalTables)
    ensures ValidEvalTables(e)
  {
    hide MT.MaskOf, ExpectedValue, Popcount;
    var popcounts, values := [], [];
    for code := 0 to MT.MASK_COUNT
      invariant |popcounts| == |values| == code
      invariant forall c :: 0 <= c < code ==>
                  popcounts[c] == Popcount(MT.MaskOf(c)) && values[c] == ExpectedValue(MT.MaskOf(c))
    {
      var count := CountForms(MT.MaskOf(code));
      var value := MeanValue(MT.MaskOf(code));
      popcounts := popcounts + [count];
      values := values + [value];
    }
    e := EvalTables(popcounts, values);
  }

  lemma TableEntry(e: EvalTables, m: Mask)
    requires ValidEvalTables(e)
    ensures 0 <= MT.Code(m) < MT.MASK_COUNT
    ensures e.popcounts[MT.Code(m)] == Popcount(m) && e.values[MT.Code(m)] == ExpectedValue(m)
  {
    MT.CodeRoundTrip(m, 0);
    hide MT.Code, MT.MaskOf;
  }

  // ---------------------------------------------------------------- the reference evaluator

  method IsSquareAttacked(s: State, square: int, attacker: Side, t: RuleTables) returns (attacked: bool)
    requires Shaped(s) && ValidTables(t) && 0 <= square < BOARD_SIZE
    ensures attacked <==> IsAttacked(s, square, attacker)
  {
    hide Movers;
    for piece := 0 to PIECE_COUNT
      invariant forall p :: 0 <= p < piece ==> !AttacksFrom(s, square, attacker, p)
    {
      if s.owner[piece] != attacker || s.pos[piece] >= BOARD_SIZE {
        continue;
      }
      assert MT.PossibleEntry(t.moves.possible, attacker, s.pos[piece], square);
      if !t.moves.possible[(attacker, s.pos[piece], square)].Meet(s.mask[piece]).IsEmpty() {
        assert AttacksFrom(s, square, attacker, piece);
        return true;
      }
    }
    attacked := false;
  }

  method LionCandidateCount(s: State, side: Side) returns (count: int)
    requires Shaped(s)
    ensures count == CandidateCount(s, side, PIECE_COUNT)
  {
    count := 0;
    for piece := 0 to PIECE_COUNT
      invariant count == CandidateCount(s, side, piece)
    {
      if s.owner[piece] == side && s.mask[piece].lion {
        count := count + 1;
      }
    }
  }

  function VisitsBelow(s: State, p: int, bound: int): set<int>
    requires Shaped(s) && 0 <= p < PIECE_COUNT && bound <= BOARD_SIZE
  {
    set to: int | 0 <= to < bound && CanReach(s, p, to)
  }

  lemma VisitsGrow(s: State, p: int, to: int)
    requires Shaped(s) && 0 <= p < PIECE_COUNT && 0 <= to < BOARD_SIZE
    ensures |VisitsBelow(s, p, 0)| == 0 && VisitsBelow(s, p, BOARD_SIZE) == Visits(s, p)
    ensures |VisitsBelow(s, p, to + 1)| == |VisitsBelow(s, p, to)| + if CanReach(s, p, to) then 1 else 0
  {
    hide CanReach;
    assert VisitsBelow(s, p, 0) == {};
    assert VisitsBelow(s, p, to + 1) == VisitsBelow(s, p, to) + if CanReach(s, p, to) then {to} else {};
  }

  method PieceMobility(s: State, piece: int, t: RuleTables) returns (count: int)
    requires Shaped(s) && ValidTables(t) && 0 <= piece < PIECE_COUNT
    ensures count == |Visits(s, piece)|
  {
    count := 0;
    VisitsGrow(s, piece, 0);
    hide VisitsBelow, Visits, Movers;
    if IsHandPosition(s.pos[piece]) {
      for square := 0 to BOARD_SIZE
        invariant count == |VisitsBelow(s, piece, square)|
      {
        VisitsGrow(s, piece, square);
        if s.board[square] == EMPTY_SQUARE {
          count := count + 1;
        }
      }
      return;
    }
    assert MT.QuantumEntry(t.moves.quantum, s.mask[piece], s.owner[piece], s.pos[piece]);
    var destinations := t.moves.quantum[(MT.Code(s.mask[piece]), s.owner[piece], s.pos[piece])];
    for square := 0 to BOARD_SIZE
      invariant count == |VisitsBelow(s, piece, square)|
    {
      VisitsGrow(s, piece, square);
      if square !in destinations {
        continue;
      }
      var occupant := s.board[square];
      if occupant < 0 || s.owner[occupant] != s.owner[piece] {
        count := count + 1;
      }
    }
  }

  method GeometricMobility(s: State, side: Side, t: RuleTables) returns (count: int)
    requires Shaped(s) && ValidTables(t)
    ensures count == MobilityCount(s, side, PIECE_COUNT)
  {
    hide Visits;
    count := 0;
    for piece := 0 to PIECE_COUNT
      invariant count == MobilityCount(s, side, piece)
    {
      if s.owner[piece] == side {
        var own := PieceMobility(s, piece, t);
        count := count + own;
      }
    }
  }

  /** Tries every pseudo-legal move on a copy whose side to move is replaced. */
  method SideHasImmediateWin(s: State, side: Side, t: RuleTables) returns (wins: bool)
    requires Shaped(s) && ValidTables(t)
    ensures wins <==> HasImmediateWin(Reference, s, side)
  {
    hide Apply, WinsFor;
    var probe := Probe(s, side);
    var moves := GeneratePseudoLegalMoves(probe, t);
    for i := 0 to |moves|
      invariant forall j :: 0 <= j < i ==> !WinsAtOnce(s, side, moves[j])
    {
      var copy := new Position(probe);
      var applied, undo := ApplyMove(copy, moves[i], LineageLut, t);
      if applied && WinsFor(copy.Snapshot(), side) {
        assert Tries(Reference, s, side, moves[i]) && WinsAtOnce(s, side, moves[i]);
        return true;
      }
    }
    wins := false;
  }

  method MaterialBaseline(s: State) returns (southScore: int)
    requires Shaped(s)
    ensures southScore == MaterialSum(s, PIECE_COUNT)
  {
    hide ExpectedValue, Popcount;
    southScore := 0;
    for piece := 0 to PIECE_COUNT
      invariant southScore == MaterialSum(s, piece)
    {
      var sign := if s.owner[piece].South? then 1 else -1;
      var value := MeanValue(s.mask[piece]);
      var forms := CountForms(s.mask[piece]);
      southScore := southScore + sign * value;
      southScore := southScore + sign * (forms - 1) * 12;
    }
  }

  method LionSafetyBaseline(s: State, t: RuleTables) returns (southScore: int)
    requires Shaped(s) && ValidTables(t)
    ensures southScore == LionSum(s, PIECE_COUNT)
  {
    hide IsAttacked, Row;
    southScore := 0;
    for piece := 0 to PIECE_COUNT
      invariant southScore == LionSum(s, piece)
    {
      var side := s.owner[piece];
      var sign := if side.South? then 1 else -1;
      var mask := s.mask[piece];
      if !mask.lion {
        continue;
      }
      var onBoard := s.pos[piece] < BOARD_SIZE;
      if onBoard {
        var attacked := IsSquareAttacked(s, s.pos[piece], side.Opposite(), t);
        if attacked {
          southScore := southScore - sign * (if mask == LION_ONLY then 700 else 180);
        }
      }
      if onBoard {
        southScore := southScore + sign * Progress(s.pos[piece], side) * (if mask == LION_ONLY then 90 else 25);
      }
      if mask == LION_ONLY && !onBoard {
        southScore := southScore - sign * 900;
      }
    }
  }

  method EvaluateBaseline(s: State, t: RuleTables) returns (score: int)
    requires Shaped(s) && ValidTables(t)
    ensures score == StaticScore(Reference, s)
  {
    hide HasImmediateWin, MaterialSum, LionSum, CandidateCount, MobilityCount, SignedScores;
    if s.terminal != Ongoing {
      return TerminalScore(s, 0);
    }
    var southScore := MaterialBaseline(s);
    var safety := LionSafetyBaseline(s, t);
    southScore := southScore + safety;
    var southLions := LionCandidateCount(s, South);
    var northLions := LionCandidateCount(s, North);
    southScore := southScore + 80 * (southLions - northLions);
    var southMobility := GeometricMobility(s, South, t);
    var northMobility := GeometricMobility(s, North, t);
    southScore := southScore + 18 * (southMobility - northMobility);
    var southWins := SideHasImmediateWin(s, South, t);
    if southWins {
      southScore := southScore + WIN_BONUS;
    }
    var northWins := SideHasImmediateWin(s, North, t);
    if northWins {
      southScore := southScore - WIN_BONUS;
    }
    ScoreFromComponents(s);
    score := if s.sideToMove.South? then southScore else -southScore;
  }

  // ---------------------------------------------------------------- the optimized evaluator

  /** Reusable evaluation workspace; the pairs are indexed South, North. */
  class EvalScratch {
    var occupancy: seq<set<int>>
    var attackMask: seq<set<int>>
    var mobility: seq<int>
    var lionCandidates: seq<int>
    var pseudoMoves: seq<Move>
    var immediateCandidates: seq<Move>

    constructor ()
    {
      occupancy, attackMask, mobility, lionCandidates := [{}, {}], [{}, {}], [0, 0], [0, 0];
      pseudoMoves, immediateCandidates := [], [];
    }
  }

  function OwnSquares(s: State, side: Side): set<int>
    requires Shaped(s)
  {
    set x: int | 0 <= x < BOARD_SIZE && s.board[x] >= 0 && s.owner[s.board[x]] == side
  }

  function EmptySquares(s: State): set<int>
    requires Shaped(s)
  {
    set x: int | 0 <= x < BOARD_SIZE && s.board[x] == EMPTY_SQUARE
  }

  /** Squares some board piece of a side, among the first n pieces, can step to. */
  ghost predicate ReachedBy(s: State, side: Side, n: int, x: int)
    requires Shaped(s) && n <= PIECE_COUNT
  {
    0 <= x < BOARD_SIZE && exists p :: 0 <= p < n && AttacksFrom(s, x, side, p)
  }

  lemma VisitsByOccupancy(s: State, p: int)
    requires Shaped(s) && 0 <= p < PIECE_COUNT
    ensures IsHandPosition(s.pos[p]) ==> Visits(s, p) == EmptySquares(s)
    ensures !IsHandPosition(s.pos[p]) ==>
              Visits(s, p) == MT.MaskTargets(s.mask[p], s.owner[p], s.pos[p]) - OwnSquares(s, s.owner[p])
  {
    hide Movers;
  }

  function OwnBelow(s: State, side: Side, n: int): set<int>
    requires Shaped(s)
  {
    set x | x in OwnSquares(s, side) && x < n
  }

  function EmptyBelow(s: State, n: int): set<int>
    requires Shaped(s)
  {
    set x | x in EmptySquares(s) && x < n
  }

  lemma OwnGrows(s: State, side: Side, square: int)
    requires Shaped(s) && 0 <= square < BOARD_SIZE
    ensures OwnBelow(s, side, 0) == {} && OwnBelow(s, side, BOARD_SIZE) == OwnSquares(s, side)
    ensures OwnBelow(s, side, square + 1) ==
              OwnBelow(s, side, square)
              + if s.board[square] >= 0 && s.owner[s.board[square]] == side then {square} else {}
  {
  }

  lemma OccupancyGrows(s: State, square: int)
    requires Shaped(s) && 0 <= square < BOARD_SIZE
    ensures OwnBelow(s, South, 0) == OwnBelow(s, North, 0) == {} && |EmptyBelow(s, 0)| == 0
    ensures OwnBelow(s, South, square + 1) ==
              OwnBelow(s, South, square)
              + if s.board[square] >= 0 && s.owner[s.board[square]] == South then {square} else {}
    ensures OwnBelow(s, North, square + 1) ==
              OwnBelow(s, North, square)
              + if s.board[square] >= 0 && s.owner[s.board[square]] == North then {square} else {}
    ensures |EmptyBelow(s, square + 1)| == |EmptyBelow(s, square)| + if s.board[square] < 0 then 1 else 0
    ensures OwnBelow(s, South, BOARD_SIZE) == OwnSquares(s, South)
    ensures OwnBelow(s, North, BOARD_SIZE) == OwnSquares(s, North)
    ensures EmptyBelow(s, BOARD_SIZE) == EmptySquares(s)
  {
    OwnGrows(s, South, square);
    OwnGrows(s, North, square);
    hide OwnBelow, OwnSquares;
    assert EmptyBelow(s, 0) == {};
    assert EmptyBelow(s, square + 1) == EmptyBelow(s, square) + if s.board[square] < 0 then {square} else {};
  }

  method MeasureOccupancy(s: State, scratch: EvalScratch) returns (emptyCount: int)
    requires Shaped(s)
    modifies scratch
    ensures scratch.occupancy == [OwnSquares(s, South), OwnSquares(s, North)] && scratch.mobility == [0, 0]
    ensures emptyCount == |EmptySquares(s)|
  {
    hide OwnBelow, EmptyBelow, OwnSquares, EmptySquares;
    OccupancyGrows(s, 0);
    var south, north := {}, {};
    emptyCount := 0;
    for square := 0 to BOARD_SIZE
      invariant south == OwnBelow(s, South, square) && north == OwnBelow(s, North, square)
      invariant emptyCount == |EmptyBelow(s, square)|
    {
      OccupancyGrows(s, square);
      var piece := s.board[square];
      if piece < 0 {
        emptyCount := emptyCount + 1;
      } else if s.owner[piece].South? {
        south := south + {square};
      } else {
        north := north + {square};
      }
    }
    scratch.occupancy := [south, north];
    scratch.mobility := [0, 0];
  }

  method MeasureMobility(s: State, scratch: EvalScratch, t: RuleTables)
    requires Shaped(s) && ValidTables(t)
    modifies scratch
    ensures |scratch.mobility| == 2
    ensures scratch.mobility[0] - scratch.mobility[1] ==
              MobilityCount(s, South, PIECE_COUNT) - MobilityCount(s, North, PIECE_COUNT)
  {
    var emptyCount := MeasureOccupancy(s, scratch);
    hide Visits, OwnSquares, EmptySquares, MT.MaskTargets;
    for piece := 0 to PIECE_COUNT
      invariant scratch.occupancy == [OwnSquares(s, South), OwnSquares(s, North)]
      invariant |scratch.mobility| == 2
      invariant scratch.mobility[0] == MobilityCount(s, South, piece)
      invariant scratch.mobility[1] == MobilityCount(s, North, piece)
    {
      VisitsByOccupancy(s, piece);
      assert s.owner[piece].South? || s.owner[piece].North?;
      var owner := SideIndex(s.owner[piece]);
      if IsHandPosition(s.pos[piece]) {
        scratch.mobility := scratch.mobility[owner := scratch.mobility[owner] + emptyCount];
        continue;
      }
      assert MT.QuantumEntry(t.moves.quantum, s.mask[piece], s.owner[piece], s.pos[piece]);
      var destinations := t.moves.quantum[(MT.Code(s.mask[piece]), s.owner[piece], s.pos[piece])];
      var available := destinations - scratch.occupancy[owner];
      var count := CountSquares(available);
      scratch.mobility := scratch.mobility[owner := scratch.mobility[owner] + count];
    }
  }

  method MeasureAttacks(s: State, scratch: EvalScratch, t: RuleTables)
    requires Shaped(s) && ValidTables(t)
    modifies scratch
    ensures |scratch.attackMask| == |scratch.lionCandidates| == 2
    ensures forall x :: 0 <= x < BOARD_SIZE ==> (x in scratch.attackMask[0] <==> IsAttacked(s, x, South))
    ensures forall x :: 0 <= x < BOARD_SIZE ==> (x in scratch.attackMask[1] <==> IsAttacked(s, x, North))
    ensures scratch.lionCandidates == [CandidateCount(s, South, PIECE_COUNT), CandidateCount(s, North, PIECE_COUNT)]
  {
    hide Movers;
    scratch.attackMask := [{}, {}];
    scratch.lionCandidates := [0, 0];
    for piece := 0 to PIECE_COUNT
      invariant |scratch.attackMask| == |scratch.lionCandidates| == 2
      invariant forall x :: x in scratch.attackMask[0] <==> ReachedBy(s, South, piece, x)
      invariant forall x :: x in scratch.attackMask[1] <==> ReachedBy(s, North, piece, x)
      invariant scratch.lionCandidates == [CandidateCount(s, South, piece), CandidateCount(s, North, piece)]
    {
      assert s.owner[piece].South? || s.owner[piece].North?;
      var owner := SideIndex(s.owner[piece]);
      forall x, side
        ensures ReachedBy(s, side, piece + 1, x) <==>
                  ReachedBy(s, side, piece, x) || (0 <= x < BOARD_SIZE && AttacksFrom(s, x, side, piece))
      {
      }
      if s.pos[piece] < BOARD_SIZE {
        assert MT.QuantumEntry(t.moves.quantum, s.mask[piece], s.owner[piece], s.pos[piece]);
        var reached := t.moves.quantum[(MT.Code(s.mask[piece]), s.owner[piece], s.pos[piece])];
        ReachedIsAttack(s, piece);
        scratch.attackMask := scratch.attackMask[owner := scratch.attackMask[owner] + reached];
      }
      if s.mask[piece].lion {
        scratch.lionCandidates := scratch.lionCandidates[owner := scratch.lionCandidates[owner] + 1];
      }
    }
  }

  lemma ReachedIsAttack(s: State, p: int)
    requires Shaped(s) && 0 <= p < PIECE_COUNT && s.pos[p] < BOARD_SIZE
    ensures forall x :: x in MT.MaskTargets(s.mask[p], s.owner[p], s.pos[p]) <==>
              0 <= x < BOARD_SIZE && AttacksFrom(s, x, s.owner[p], p)
  {
    hide Movers;
  }

  /** Only a capture of a Lion candidate can win at once while Lion candidates are in custody: a Try is
      never the mover's, and a Catch needs a Lion candidate in hand. */
  lemma WinsCaptureALion(s: State, side: Side, m: Move)
    requires Coherent(s) && Custody(s) && WinsAtOnce(s, side, m)
    ensures m.Valid() && s.board[m.to] >= 0 && s.mask[s.board[m.to]].lion
  {
    var probe := Probe(s, side);
    var t := Apply(probe, m).value;
    assert Coherent(probe) && Custody(probe);
    hide Apply, Coherent, IsPseudoLegal;
    ApplyKeepsSound(probe, m, t);
    WinIsCatch(probe, m, t);
    HandLionWasCaptured(probe, m, t);
  }

  lemma HandLionWasCaptured(s: State, m: Move, t: State)
    requires Custody(s) && Follows(s, m, t) && HasHandLionCandidate(t, s.sideToMove)
    ensures m.Valid() && s.board[m.to] >= 0 && s.mask[s.board[m.to]].lion
  {
    var p :| 0 <= p < PIECE_COUNT && IsHandLion(t, s.sideToMove, p);
    assert p == s.board[m.to];
  }

  lemma WinIsCatch(s: State, m: Move, t: State)
    requires Coherent(s) && Apply(s, m) == Some(t) && WinsFor(t, s.sideToMove) && s.terminal == Ongoing
    requires s.winner == NO_WINNER
    ensures Shaped(t) && HasHandLionCandidate(t, s.sideToMove)
  {
    var v := Settled(s, m).value;
    SettledKeeps(s, m, v);
    hide Settled, HasSurvivingTry, Agree, Closed, FormsSettled, IsPseudoLegal;
    JudgedWinner(Passed(v, s.sideToMove), s.sideToMove);
    FinishedFields(v, s.sideToMove);
    assert forall p :: 0 <= p < PIECE_COUNT ==>
             IsHandLion(Passed(v, s.sideToMove), s.sideToMove, p) == IsHandLion(t, s.sideToMove, p);
  }

  lemma JudgedWinner(s: State, mover: Side)
    requires Shaped(s) && s.sideToMove == mover.Opposite() && s.terminal == Ongoing && s.winner == NO_WINNER
    ensures WinsFor(Judged(s, mover), mover) <==>
              !HasSurvivingTry(s, mover.Opposite()) && HasHandLionCandidate(s, mover)
  {
  }

  /** Keeps the moves that capture a Lion candidate or take one to the far rank. */
  method FilterCandidates(s: State, side: Side, moves: seq<Move>) returns (kept: seq<Move>)
    requires Shaped(s) && forall m :: m in moves ==> m.Valid()
    ensures forall m :: m in kept <==> m in moves && CouldWin(s, side, m)
    ensures forall m :: m in kept <==>
              && m in moves && m.Valid()
              && (|| (s.board[m.to] >= 0 && s.mask[s.board[m.to]].lion)
                  || (s.mask[m.piece].lion && m.to in if side.South? then {0, 1, 2} else {9, 10, 11}))
  {
    forall m | m in moves
      ensures IsBackRank(m.to, side) <==> m.to in if side.South? then {0, 1, 2} else {9, 10, 11}
    {
    }
    hide IsBackRank;
    kept := [];
    for i := 0 to |moves|
      invariant forall m :: m in kept <==> m in moves[..i] && CouldWin(s, side, m)
    {
      var move := moves[i];
      assert move in moves && moves[..i + 1] == moves[..i] + [move];
      var target := s.board[move.to];
      var canCatch := target >= 0 && s.mask[target].lion;
      var canTry := s.mask[move.piece].lion && IsBackRank(move.to, side);
      if canCatch || canTry {
        kept := kept + [move];
      }
    }
    assert moves[..|moves|] == moves;
  }

  /** Tries candidates one after another on one copy, undoing each. */
  method TryCandidates(s: State, side: Side, candidates: seq<Move>, t: RuleTables) returns (wins: bool)
    requires Shaped(s) && ValidTables(t)
    ensures wins <==> exists m :: m in candidates && WinsAtOnce(s, side, m)
  {
    hide Apply, WinsFor;
    var probe := Probe(s, side);
    var copy := new Position(probe);
    for k := 0 to |candidates|
      invariant copy.Snapshot() == probe && fresh(copy)
      invariant forall j :: 0 <= j < k ==> !WinsAtOnce(s, side, candidates[j])
    {
      var applied, undo := ApplyMove(copy, candidates[k], LineageLut, t);
      if applied && WinsFor(copy.Snapshot(), side) {
        assert WinsAtOnce(s, side, candidates[k]);
        return true;
      }
      if applied {
        UndoMove(copy, undo);
      }
    }
    wins := false;
  }

  method HasImmediateWinFast(s: State, side: Side, scratch: EvalScratch, t: RuleTables) returns (wins: bool)
    requires Shaped(s) && ValidTables(t)
    modifies scratch
    ensures wins <==> HasImmediateWin(Optimized, s, side)
  {
    hide WinsAtOnce, PseudoLegalMoves, CanReach, CouldWin;
    var probe := Probe(s, side);
    var moves := GeneratePseudoLegalMoves(probe, t);
    scratch.pseudoMoves := moves;
    forall m | m in moves
      ensures m.Valid()
    {
      PseudoLegalMember(probe, m);
    }
    var candidates := FilterCandidates(s, side, moves);
    scratch.immediateCandidates := candidates;
    assert forall m :: m in candidates <==> Tries(Optimized, s, side, m);
    wins := TryCandidates(s, side, candidates, t);
  }

  method MaterialOptimized(s: State, e: EvalTables) returns (southScore: int)
    requires Shaped(s) && ValidEvalTables(e)
    ensures southScore == MaterialSum(s, PIECE_COUNT)
  {
    hide ExpectedValue, Popcount;
    southScore := 0;
    for piece := 0 to PIECE_COUNT
      invariant southScore == MaterialSum(s, piece)
    {
      var sign := if s.owner[piece].South? then 1 else -1;
      var code := MT.Code(s.mask[piece]);
      TableEntry(e, s.mask[piece]);
      southScore := southScore + sign * e.values[code];
      southScore := southScore + sign * (e.popcounts[code] - 1) * 12;
    }
  }

  /** No reachable position has a winning move the optimized evaluator would not try. */
  lemma SameImmediateWins(s: State, side: Side)
    requires Coherent(s) && Custody(s)
    ensures Shaped(s) && (HasImmediateWin(Optimized, s, side) <==> HasImmediateWin(Reference, s, side))
  {
    hide WinsAtOnce, PseudoLegalMoves, Coherent, Custody;
    CoherentIsShaped(s);
    if m :| Tries(Reference, s, side, m) && WinsAtOnce(s, side, m) {
      WinsCaptureALion(s, side, m);
      assert Tries(Optimized, s, side, m);
    }
    if m :| Tries(Optimized, s, side, m) && WinsAtOnce(s, side, m) {
      assert Tries(Reference, s, side, m);
    }
  }

  /** While Lion candidates are in custody the two evaluators give one score. */
  lemma EvaluatorsAgree(s: State)
    requires Coherent(s) && Custody(s)
    ensures Shaped(s) && StaticScore(Optimized, s) == StaticScore(Reference, s)
  {
    hide HasImmediateWin, Coherent, Custody, SignedScores, Sum;
    SameImmediateWins(s, South);
    SameImmediateWins(s, North);
  }

  /** A win of the side that only moves the optimized evaluator does not try would bring about. */
  ghost predicate MissesWin(s: State, side: Side)
    requires Shaped(s)
  {
    HasImmediateWin(Reference, s, side) && !HasImmediateWin(Optimized, s, side)
  }

  lemma OptimizedWinsAreWins(s: State, side: Side)
    requires Shaped(s) && HasImmediateWin(Optimized, s, side)
    ensures HasImmediateWin(Reference, s, side)
  {
    hide WinsAtOnce, PseudoLegalMoves;
    var m :| Tries(Optimized, s, side, m) && WinsAtOnce(s, side, m);
    assert Tries(Reference, s, side, m);
  }

  /** Anywhere, the scores differ exactly when the filter misses a win for one side only. */
  lemma EvaluatorsAgreeExactly(s: State)
    requires Shaped(s) && s.terminal == Ongoing
    ensures StaticScore(Optimized, s) == StaticScore(Reference, s) <==> (MissesWin(s, South) <==> MissesWin(s, North))
  {
    hide HasImmediateWin, SignedScores, Sum;
    if HasImmediateWin(Optimized, s, South) {
      OptimizedWinsAreWins(s, South);
    }
    if HasImmediateWin(Optimized, s, North) {
      OptimizedWinsAreWins(s, North);
    }
  }

  /** The score with the filtered win test, which in custody is the reference score. */
  method EvaluateOptimized(s: State, scratch: EvalScratch, t: RuleTables, e: EvalTables) returns (score: int)
    requires Shaped(s) && ValidTables(t) && ValidEvalTables(e)
    modifies scratch
    ensures score == StaticScore(Optimized, s)
    ensures Coherent(s) && Custody(s) ==> score == StaticScore(Reference, s)
  {
    hide HasImmediateWin, IsAttacked, Coherent, Custody, MaterialSum, LionSum, CandidateCount, MobilityCount,
         SignedScores;
    if Coherent(s) && Custody(s) {
      EvaluatorsAgree(s);
    }
    if s.terminal != Ongoing {
      return TerminalScore(s, 0);
    }
    var southScore := MaterialOptimized(s, e);
    MeasureMobility(s, scratch, t);
    southScore := southScore + 18 * (scratch.mobility[0] - scratch.mobility[1]);
    MeasureAttacks(s, scratch, t);
    var lions := LionSafety(s, scratch);
    southScore := southScore + lions;
    southScore := southScore + 80 * (scratch.lionCandidates[0] - scratch.lionCandidates[1]);
    var southWins := HasImmediateWinFast(s, South, scratch, t);
    if southWins {
      southScore := southScore + WIN_BONUS;
    }
    var northWins := HasImmediateWinFast(s, North, scratch, t);
    if northWins {
      southScore := southScore - WIN_BONUS;
    }
    ScoreFromComponents(s);
    score := if s.sideToMove.South? then southScore else -southScore;
  }

  /** The Lion terms, reading attacks off the accumulated attack sets. */
  method LionSafety(s: State, scratch: EvalScratch) returns (total: int)
    requires Shaped(s) && |scratch.attackMask| == 2
    requires forall x :: 0 <= x < BOARD_SIZE ==> (x in scratch.attackMask[0] <==> IsAttacked(s, x, South))
    requires forall x :: 0 <= x < BOARD_SIZE ==> (x in scratch.attackMask[1] <==> IsAttacked(s, x, North))
    ensures total == LionSum(s, PIECE_COUNT)
  {
    hide IsAttacked;
    total := 0;
    for piece := 0 to PIECE_COUNT
      invariant total == LionSum(s, piece)
    {
      var mask := s.mask[piece];
      if !mask.lion {
        continue;
      }
      assert s.owner[piece].South? || s.owner[piece].North?;
      var owner := SideIndex(s.owner[piece]);
      var sign := if owner == 0 then 1 else -1;
      var onBoard := s.pos[piece] < BOARD_SIZE;
      if onBoard && s.pos[piece] in scratch.attackMask[1 - owner] {
        total := total - sign * (if mask == LION_ONLY then 700 else 180);
      }
      if onBoard {
        total := total + sign * Progress(s.pos[piece], s.owner[piece]) * (if mask == LION_ONLY then 90 else 25);
      }
      if mask == LION_ONLY && !onBoard {
        total := total - sign * 900;
      }
    }
  }
}
