/** The precomputed movement tables: destinations of one form, destinations of a mask, and the forms
    able to make a step. Bitboards are sets of squares; a table is a map from its index tuple.
 */
module MoveTables {
  import opened Animals

  const ALL_FORMS: seq<Animal> := [Chick, Giraffe, Elephant, Lion, Hen]
  const MASK_COUNT := 32

  datatype Tables = Tables(move: map<(Animal, Side, int), set<int>>,
                           quantum: map<(int, Side, int), set<int>>,
                           possible: map<(Side, int, int), Mask>)

  function Targets(form: Animal, side: Side, from: int): set<int> {
    set to: int | 0 <= to < BOARD_SIZE && Reaches(form, side, from, to)
  }

  /** The squares some form of a mask can step to. */
  function MaskTargets(mask: Mask, side: Side, from: int): set<int> {
    set to: int | 0 <= to < BOARD_SIZE && !mask.Meet(Movers(side, from, to)).IsEmpty()
  }

  /** The integer a mask is stored as. */
  function Code(m: Mask): int {
    (if m.chick then 1 else 0) + (if m.giraffe then 2 else 0) + (if m.elephant then 4 else 0)
    + (if m.lion then 8 else 0) + (if m.hen then 16 else 0)
  }

  function MaskOf(code: int): Mask {
    Mask(code % 2 == 1, code / 2 % 2 == 1, code / 4 % 2 == 1, code / 8 % 2 == 1, code / 16 % 2 == 1)
  }

  /** The five binary digits of a small number. */
  lemma BinaryDigits(b0: int, b1: int, b2: int, b3: int, b4: int)
    requires 0 <= b0 <= 1 && 0 <= b1 <= 1 && 0 <= b2 <= 1 && 0 <= b3 <= 1 && 0 <= b4 <= 1
    ensures var code := b0 + 2 * b1 + 4 * b2 + 8 * b3 + 16 * b4;
            code % 2 == b0 && code / 2 % 2 == b1 && code / 4 % 2 == b2 && code / 8 % 2 == b3 && code / 16 % 2 == b4
  {
    var code := b0 + 2 * b1 + 4 * b2 + 8 * b3 + 16 * b4;
    assert code / 2 == b1 + 2 * b2 + 4 * b3 + 8 * b4;
    assert code / 4 == b2 + 2 * b3 + 4 * b4;
    assert code / 8 == b3 + 2 * b4;
    assert code / 16 == b4;
  }

  lemma MaskOfCode(m: Mask)
    ensures 0 <= Code(m) < MASK_COUNT && MaskOf(Code(m)) == m
  {
    BinaryDigits(if m.chick then 1 else 0, if m.giraffe then 1 else 0, if m.elephant then 1 else 0,
                 if m.lion then 1 else 0, if m.hen then 1 else 0);
  }

  lemma CodeOfMask(code: int)
    requires 0 <= code < MASK_COUNT
    ensures Code(MaskOf(code)) == code
  {
    var h, q, e, s := code / 2, code / 4, code / 8, code / 16;
    assert q == h / 2 && e == q / 2 && s == e / 2;
    assert code == 2 * h + code % 2 && h == 2 * q + h % 2 && q == 2 * e + q % 2 && e == 2 * s + e % 2 && s == s % 2;
  }

  lemma CodeRoundTrip(m: Mask, code: int)
    requires 0 <= code < MASK_COUNT
    ensures 0 <= Code(m) < MASK_COUNT && MaskOf(Code(m)) == m
    ensures Code(MaskOf(code)) == code
  {
    CodeOfMask(code);
    MaskOfCode(m);
  }

  ghost predicate MoveEntry(move: map<(Animal, Side, int), set<int>>, form: Animal, side: Side, from: int)
  {
    (form, side, from) in move && move[(form, side, from)] == Targets(form, side, from)
  }

  ghost predicate QuantumEntry(quantum: map<(int, Side, int), set<int>>, mask: Mask, side: Side, from: int)
  {
    (Code(mask), side, from) in quantum && quantum[(Code(mask), side, from)] == MaskTargets(mask, side, from)
  }

  ghost predicate PossibleEntry(possible: map<(Side, int, int), Mask>, side: Side, from: int, to: int)
  {
    (side, from, to) in possible && possible[(side, from, to)] == Movers(side, from, to)
  }

  ghost predicate ValidMoves(move: map<(Animal, Side, int), set<int>>)
  {
    forall form, side, from :: 0 <= from < BOARD_SIZE ==> MoveEntry(move, form, side, from)
  }

  ghost predicate ValidQuantum(quantum: map<(int, Side, int), set<int>>)
  {
    forall mask, side, from :: 0 <= from < BOARD_SIZE ==> QuantumEntry(quantum, mask, side, from)
  }

  ghost predicate ValidPossible(possible: map<(Side, int, int), Mask>)
  {
    forall side, from, to :: 0 <= from < BOARD_SIZE && 0 <= to < BOARD_SIZE ==> PossibleEntry(possible, side, from, to)
  }

  ghost predicate Valid(t: Tables)
  {
    ValidMoves(t.move) && ValidQuantum(t.quantum) && ValidPossible(t.possible)
  }

  predicate Inside(row: int, col: int) {
    0 <= row < BOARD_HEIGHT && 0 <= col < BOARD_WIDTH
  }

  lemma SquareByCoordinates(row: int, col: int)
    requires Inside(row, col)
    ensures 0 <= row * BOARD_WIDTH + col < BOARD_SIZE
    ensures Row(row * BOARD_WIDTH + col) == row && Col(row * BOARD_WIDTH + col) == col
  {
  }

  lemma CoordinatesOfSquare(square: int)
    requires 0 <= square < BOARD_SIZE
    ensures Inside(Row(square), Col(square)) && Row(square) * BOARD_WIDTH + Col(square) == square
  {
  }

  /** Targets whose displacement comes before (dr, dc) in scan order. */
  ghost predicate Scanned(form: Animal, side: Side, from: int, dr: int, dc: int, to: int)
  {
    && 0 <= to < BOARD_SIZE && Reaches(form, side, from, to)
    && (Row(to) - Row(from) < dr || (Row(to) - Row(from) == dr && Col(to) - Col(from) < dc))
  }

  lemma ScanStep(form: Animal, side: Side, from: int, dr: int, dc: int, to: int)
    requires -1 <= dr <= 1 && -1 <= dc <= 1 && 0 <= from < BOARD_SIZE
    ensures Scanned(form, side, from, dr, dc + 1, to) <==>
              || Scanned(form, side, from, dr, dc, to)
              || (&& (dr != 0 || dc != 0) && Allowed(form, side, dr, dc)
                  && Inside(Row(from) + dr, Col(from) + dc) && to == (Row(from) + dr) * BOARD_WIDTH + Col(from) + dc)
  {
    if 0 <= to < BOARD_SIZE {
      CoordinatesOfSquare(to);
    }
    if Inside(Row(from) + dr, Col(from) + dc) {
      SquareByCoordinates(Row(from) + dr, Col(from) + dc);
    }
    hide Row, Col, Allowed;
  }

  lemma ScanBounds(form: Animal, side: Side, from: int, dr: int, to: int)
    ensures !Scanned(form, side, from, -1, -1, to)
    ensures Scanned(form, side, from, dr + 1, -1, to) <==> Scanned(form, side, from, dr, 2, to)
    ensures Scanned(form, side, from, 2, -1, to) <==> 0 <= to < BOARD_SIZE && Reaches(form, side, from, to)
  {
    hide Allowed;
  }

  /** The destinations of a form by scanning the eight displacements around a square. */
  method FormTargets(form: Animal, side: Side, from: int) returns (targets: set<int>)
    requires 0 <= from < BOARD_SIZE
    ensures targets == Targets(form, side, from)
  {
    var row, col := Row(from), Col(from);
    targets := {};
    forall to {
      ScanBounds(form, side, from, 0, to);
    }
    hide Row, Col, Reaches, Scanned;
    for dr := -1 to 2
      invariant forall to :: to in targets <==> Scanned(form, side, from, dr, -1, to)
    {
      for dc := -1 to 2
        invariant forall to :: to in targets <==> Scanned(form, side, from, dr, dc, to)
      {
        forall to {
          ScanStep(form, side, from, dr, dc, to);
        }
        if dr == 0 && dc == 0 {
          continue;
        }
        var toRow, toCol := row + dr, col + dc;
        if Allowed(form, side, dr, dc) && Inside(toRow, toCol) {
          var to := toRow * BOARD_WIDTH + toCol;
          targets := targets + {to};
        }
      }
      forall to {
        ScanBounds(form, side, from, dr, to);
      }
    }
  }

  lemma MaskTargetsByForm(mask: Mask, side: Side, from: int, to: int)
    ensures to in MaskTargets(mask, side, from) <==>
              exists i :: 0 <= i < |ALL_FORMS| && mask.Has(ALL_FORMS[i]) && to in Targets(ALL_FORMS[i], side, from)
  {
    hide Reaches;
    if to in MaskTargets(mask, side, from) {
      var movers := mask.Meet(Movers(side, from, to));
      var i := if movers.chick then 0 else if movers.giraffe then 1 else if movers.elephant then 2
               else if movers.lion then 3 else 4;
      assert mask.Has(ALL_FORMS[i]) && to in Targets(ALL_FORMS[i], side, from);
    }
  }

  method BuildMoveTable() returns (move: map<(Animal, Side, int), set<int>>)
    ensures ValidMoves(move)
  {
    hide Targets;
    move := map[];
    for i := 0 to |ALL_FORMS|
      invariant forall j, side, from :: 0 <= j < i && 0 <= from < BOARD_SIZE ==>
                  MoveEntry(move, ALL_FORMS[j], side, from)
    {
      var form := ALL_FORMS[i];
      for from := 0 to BOARD_SIZE
        invariant forall j, side, q :: 0 <= j < i && 0 <= q < BOARD_SIZE ==> MoveEntry(move, ALL_FORMS[j], side, q)
        invariant forall side, q :: 0 <= q < from ==> MoveEntry(move, form, side, q)
      {
        var south := FormTargets(form, South, from);
        var north := FormTargets(form, North, from);
        ghost var before := move;
        move := move[(form, South, from) := south][(form, North, from) := north];
        forall f, side, q | MoveEntry(before, f, side, q) || (f == form && q == from)
          ensures MoveEntry(move, f, side, q)
        {
          assert side.South? || side.North?;
        }
      }
    }
    forall form: Animal, side: Side, from | 0 <= from < BOARD_SIZE
      ensures MoveEntry(move, form, side, from)
    {
      var j := match form case Chick => 0 case Giraffe => 1 case Elephant => 2 case Lion => 3 case Hen => 4;
      assert MoveEntry(move, ALL_FORMS[j], side, from);
    }
  }

  /** The union of the destinations of a mask's forms. */
  method UnionTargets(move: map<(Animal, Side, int), set<int>>, mask: Mask, side: Side, from: int)
    returns (targets: set<int>)
    requires ValidMoves(move) && 0 <= from < BOARD_SIZE
    ensures targets == MaskTargets(mask, side, from)
  {
    targets := {};
    for i := 0 to |ALL_FORMS|
      invariant forall to :: to in targets <==>
                  exists j :: 0 <= j < i && mask.Has(ALL_FORMS[j]) && to in Targets(ALL_FORMS[j], side, from)
    {
      var form := ALL_FORMS[i];
      assert MoveEntry(move, form, side, from);
      if mask.Has(form) {
        targets := targets + move[(form, side, from)];
      }
    }
    forall to
      ensures to in targets <==> to in MaskTargets(mask, side, from)
    {
      MaskTargetsByForm(mask, side, from, to);
    }
  }

  method BuildQuantumTable(move: map<(Animal, Side, int), set<int>>) returns (quantum: map<(int, Side, int), set<int>>)
    requires ValidMoves(move)
    ensures ValidQuantum(quantum)
  {
    quantum := map side: Side, from: int | 0 <= from < BOARD_SIZE :: (0, side, from) := {};
    forall side, from | 0 <= from < BOARD_SIZE
      ensures QuantumEntry(quantum, MaskOf(0), side, from)
    {
    }
    hide MaskTargets, ValidMoves, MaskOf, Code;
    for mask := 1 to MASK_COUNT
      invariant forall m, side, from :: 0 <= m < mask && 0 <= from < BOARD_SIZE ==>
                  QuantumEntry(quantum, MaskOf(m), side, from)
    {
      for from := 0 to BOARD_SIZE
        invariant forall m, side, q :: 0 <= m < mask && 0 <= q < BOARD_SIZE ==>
                    QuantumEntry(quantum, MaskOf(m), side, q)
        invariant forall side, q :: 0 <= q < from ==> QuantumEntry(quantum, MaskOf(mask), side, q)
      {
        var south := UnionTargets(move, MaskOf(mask), South, from);
        var north := UnionTargets(move, MaskOf(mask), North, from);
        ghost var before := quantum;
        quantum := quantum[(mask, South, from) := south][(mask, North, from) := north];
        CodeRoundTrip(NO_FORMS, mask);
        forall k, side, q | QuantumEntry(before, k, side, q) || (k == MaskOf(mask) && q == from)
          ensures QuantumEntry(quantum, k, side, q)
        {
          CodeRoundTrip(k, 0);
          assert side.South? || side.North?;
        }
      }
    }
    forall mask, side, from | 0 <= from < BOARD_SIZE
      ensures QuantumEntry(quantum, mask, side, from)
    {
      CodeRoundTrip(mask, 0);
      assert QuantumEntry(quantum, MaskOf(Code(mask)), side, from);
    }
  }

  /** The forms able to make each step, gathered from the one-form table. */
  method BuildPossibleTable(move: map<(Animal, Side, int), set<int>>) returns (possible: map<(Side, int, int), Mask>)
    requires ValidMoves(move)
    ensures ValidPossible(possible)
  {
    hide Movers;
    possible := map[];
    for from := 0 to BOARD_SIZE
      invariant forall side, q, to :: 0 <= q < from && 0 <= to < BOARD_SIZE ==> PossibleEntry(possible, side, q, to)
    {
      for target := 0 to BOARD_SIZE
        invariant forall side, q, to :: 0 <= q < from && 0 <= to < BOARD_SIZE ==> PossibleEntry(possible, side, q, to)
        invariant forall side, to :: 0 <= to < target ==> PossibleEntry(possible, side, from, to)
      {
        var south := FormsStepping(move, South, from, target);
        var north := FormsStepping(move, North, from, target);
        ghost var before := possible;
        possible := possible[(South, from, target) := south][(North, from, target) := north];
        forall side, q, to | PossibleEntry(before, side, q, to) || (q == from && to == target)
          ensures PossibleEntry(possible, side, q, to)
        {
          assert side.South? || side.North?;
        }
      }
    }
  }

  method FormsStepping(move: map<(Animal, Side, int), set<int>>, side: Side, from: int, to: int) returns (movers: Mask)
    requires ValidMoves(move) && 0 <= from < BOARD_SIZE && 0 <= to < BOARD_SIZE
    ensures movers == Movers(side, from, to)
  {
    hide Reaches;
    assert MoveEntry(move, Chick, side, from) && MoveEntry(move, Giraffe, side, from)
        && MoveEntry(move, Elephant, side, from) && MoveEntry(move, Lion, side, from)
        && MoveEntry(move, Hen, side, from);
    movers := Mask(to in move[(Chick, side, from)], to in move[(Giraffe, side, from)],
                   to in move[(Elephant, side, from)], to in move[(Lion, side, from)], to in move[(Hen, side, from)]);
  }

  method BuildMoveTables() returns (t: Tables)
    ensures Valid(t)
  {
    var move := BuildMoveTable();
    var quantum := BuildQuantumTable(move);
    var possible := BuildPossibleTable(move);
    t := Tables(move, quantum, possible);
  }

  // ---------------------------------------------------------------- the tables in rows and columns

  /** Each form's steps, counted in rows towards the far rank and in columns to either side. */
  lemma StepsInWords(side: Side, from: int, to: int)
    requires 0 <= from < 12 && 0 <= to < 12
    ensures var ahead := if side.South? then from / 3 - to / 3 else to / 3 - from / 3;
            var aside := if from % 3 < to % 3 then to % 3 - from % 3 else from % 3 - to % 3;
            && (Movers(side, from, to).chick <==> ahead == 1 && aside == 0)
            && (Movers(side, from, to).giraffe <==> (ahead in {-1, 1} && aside == 0) || (ahead == 0 && aside == 1))
            && (Movers(side, from, to).elephant <==> ahead in {-1, 1} && aside == 1)
            && (Movers(side, from, to).lion <==> -1 <= ahead <= 1 && aside <= 1 && from != to)
            && (Movers(side, from, to).hen <==>
                  -1 <= ahead <= 1 && aside <= 1 && from != to && !(ahead == -1 && aside == 1))
  {
  }

  /** What the built tables hold, for every form, mask, side and pair of squares. */
  lemma TablesInWords(t: Tables, mask: Mask, side: Side, from: int, to: int)
    requires Valid(t) && 0 <= from < 12 && 0 <= to < 12
    ensures forall form :: (form, side, from) in t.move
    ensures var ahead := if side.South? then from / 3 - to / 3 else to / 3 - from / 3;
            var aside := if from % 3 < to % 3 then to % 3 - from % 3 else from % 3 - to % 3;
            && (to in t.move[(Chick, side, from)] <==> ahead == 1 && aside == 0)
            && (to in t.move[(Giraffe, side, from)] <==>
                  (ahead in {-1, 1} && aside == 0) || (ahead == 0 && aside == 1))
            && (to in t.move[(Elephant, side, from)] <==> ahead in {-1, 1} && aside == 1)
            && (to in t.move[(Lion, side, from)] <==> -1 <= ahead <= 1 && aside <= 1 && from != to)
            && (to in t.move[(Hen, side, from)] <==>
                  -1 <= ahead <= 1 && aside <= 1 && from != to && !(ahead == -1 && aside == 1))
    ensures (side, from, to) in t.possible
    ensures forall form :: t.possible[(side, from, to)].Has(form) <==> to in t.move[(form, side, from)]
    ensures (Code(mask), side, from) in t.quantum
    ensures to in t.quantum[(Code(mask), side, from)] <==>
              exists form :: mask.Has(form) && to in t.move[(form, side, from)]
  {
    StepsInWords(side, from, to);
    hide Movers, Code;
    assert PossibleEntry(t.possible, side, from, to) && QuantumEntry(t.quantum, mask, side, from);
    forall form
      ensures (form, side, from) in t.move
      ensures to in t.move[(form, side, from)] <==> Movers(side, from, to).Has(form)
    {
      assert MoveEntry(t.move, form, side, from);
      TargetIsMover(form, side, from, to);
    }
    MeetInWords(mask, Movers(side, from, to));
  }

  lemma TargetIsMover(form: Animal, side: Side, from: int, to: int)
    requires 0 <= to < 12
    ensures to in Targets(form, side, from) <==> Movers(side, from, to).Has(form)
  {
    hide Reaches;
  }

  lemma MeetInWords(m: Mask, n: Mask)
    ensures !m.Meet(n).IsEmpty() <==> exists form :: m.Has(form) && n.Has(form)
  {
    assert m.Meet(n).chick ==> m.Has(Chick) && n.Has(Chick);
    assert m.Meet(n).giraffe ==> m.Has(Giraffe) && n.Has(Giraffe);
    assert m.Meet(n).elephant ==> m.Has(Elephant) && n.Has(Elephant);
    assert m.Meet(n).lion ==> m.Has(Lion) && n.Has(Lion);
    assert m.Meet(n).hen ==> m.Has(Hen) && n.Has(Hen);
  }
}
