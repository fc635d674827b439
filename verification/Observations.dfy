/** The protocol boundary: the 20 by 9 observation of a state, and the state read back from it.

    The writer shows the board to the player to move, turned for North, with origins and owners relative
    to that player. The reader numbers the pieces in source order and plays as South. Whatever the state,
    the two describe one situation.
 */
module Observations {
  import opened Animals
  import opened States
  import opened Propagation
  import opened Propagators
  import opened LineageTables
  import opened Transition
  import opened Actions

  const FIELDS := 9
  const VALUE_COUNT := SOURCE_COUNT * FIELDS
  const EMPTY_ROW := [0, 0, 0, 0, 0, 0, 0, 0, 0]

  datatype DecodeError = WrongSize | NotBinary | NotOneHot | TooManyPieces | EmptyIdentity | Incomplete | Contradiction

  datatype Result<+T> = Ok(value: T) | Err(error: DecodeError)

  // ---------------------------------------------------------------- rows

  function RowAt(e: seq<int>, source: int): (r: seq<int>)
    requires |e| == VALUE_COUNT && 0 <= source < SOURCE_COUNT
    ensures |r| == FIELDS
  {
    e[FIELDS * source..FIELDS * source + FIELDS]
  }

  function WithRow(e: seq<int>, source: int, row: seq<int>): (r: seq<int>)
    requires |e| == VALUE_COUNT && 0 <= source < SOURCE_COUNT && |row| == FIELDS
    ensures |r| == VALUE_COUNT
  {
    e[..FIELDS * source] + row + e[FIELDS * source + FIELDS..]
  }

  lemma RowAfterUpdate(e: seq<int>, source: int, row: seq<int>, other: int)
    requires |e| == VALUE_COUNT && 0 <= source < SOURCE_COUNT && |row| == FIELDS && 0 <= other < SOURCE_COUNT
    ensures RowAt(WithRow(e, source, row), other) == if other == source then row else RowAt(e, other)
  {
  }

  /** What the player to move is shown of one piece. */
  function PieceRow(s: State, p: int): (r: seq<int>)
    requires |s.mask| == |s.owner| == |s.origin| == PIECE_COUNT && 0 <= p < PIECE_COUNT
    ensures |r| == FIELDS
  {
    var m, mine, held := s.mask[p], s.origin[p] == s.sideToMove, s.owner[p] == s.sideToMove;
    [Flag(m.chick), Flag(m.giraffe), Flag(m.elephant), Flag(m.lion), Flag(m.hen),
     Flag(mine), Flag(!mine), Flag(held), Flag(!held)]
  }

  predicate Binary(r: seq<int>)
    requires |r| == FIELDS
  {
    forall f :: 0 <= f < FIELDS ==> r[f] == 0 || r[f] == 1
  }

  predicate OneHot(r: seq<int>)
    requires |r| == FIELDS
  {
    r[5] + r[6] == 1 && r[7] + r[8] == 1
  }

  function RowMask(r: seq<int>): Mask
    requires |r| == FIELDS
  {
    Mask(r[0] != 0, r[1] != 0, r[2] != 0, r[3] != 0, r[4] != 0)
  }

  function RowOrigin(r: seq<int>): Side
    requires |r| == FIELDS
  {
    if r[6] != 0 then North else South
  }

  function RowOwner(r: seq<int>): Side
    requires |r| == FIELDS
  {
    if r[8] != 0 then North else South
  }

  predicate ValidRow(r: seq<int>)
    requires |r| == FIELDS
  {
    Binary(r) && OneHot(r) && !RowMask(r).IsEmpty()
  }

  /** A valid row is determined by what it says of its piece. */
  lemma RowIsItsPiece(r: seq<int>, s: State, p: int)
    requires |r| == FIELDS && ValidRow(r) && s.sideToMove == South
    requires |s.mask| == |s.owner| == |s.origin| == PIECE_COUNT && 0 <= p < PIECE_COUNT
    requires s.mask[p] == RowMask(r) && s.origin[p] == RowOrigin(r) && s.owner[p] == RowOwner(r)
    ensures PieceRow(s, p) == r
  {
  }

  // ---------------------------------------------------------------- writing

  predicate SeenBelow(s: State, n: int, source: int)
    requires 0 <= n <= |s.pos|
  {
    exists p :: 0 <= p < n && SeenAt(s, p) == source
  }

  /** The first n pieces are shown, each where it is seen, and nothing else. */
  ghost predicate ShowsFirst(e: seq<int>, s: State, n: int)
  {
    && |e| == VALUE_COUNT && Shaped(s) && 0 <= n <= PIECE_COUNT
    && (forall p :: 0 <= p < n ==> RowAt(e, SeenAt(s, p)) == PieceRow(s, p))
    && (forall source :: 0 <= source < SOURCE_COUNT && !SeenBelow(s, n, source) ==> RowAt(e, source) == EMPTY_ROW)
  }

  /** The observation shows exactly the pieces of the state, each at the place where it is seen. */
  ghost predicate Shows(e: seq<int>, s: State)
  {
    ShowsFirst(e, s, PIECE_COUNT)
  }

  lemma SeenApart(s: State, p: int, q: int)
    requires Agree(s) && 0 <= p < PIECE_COUNT && 0 <= q < PIECE_COUNT && p != q
    ensures SeenAt(s, p) != SeenAt(s, q)
  {
    assert if p < q then s.pos[p] != s.pos[q] else s.pos[q] != s.pos[p];
  }

  lemma EarlierRowKept(e: seq<int>, s: State, n: int, p: int)
    requires Agree(s) && ShowsFirst(e, s, n) && 0 <= p < n < PIECE_COUNT
    ensures RowAt(WithRow(e, SeenAt(s, n), PieceRow(s, n)), SeenAt(s, p)) == PieceRow(s, p)
  {
    hide RowAt, WithRow, PieceRow, SeenBelow, Agree;
    SeenApart(s, p, n);
    RowAfterUpdate(e, SeenAt(s, n), PieceRow(s, n), SeenAt(s, p));
  }

  lemma EmptyRowKept(e: seq<int>, s: State, n: int, source: int)
    requires ShowsFirst(e, s, n) && n < PIECE_COUNT && 0 <= source < SOURCE_COUNT && !SeenBelow(s, n + 1, source)
    ensures RowAt(WithRow(e, SeenAt(s, n), PieceRow(s, n)), source) == EMPTY_ROW
  {
    hide RowAt, WithRow, PieceRow, SeenAt;
    SeenBelowGrows(s, n, source);
    SeenInRange(s, n);
    RowAfterUpdate(e, SeenAt(s, n), PieceRow(s, n), source);
  }

  lemma SeenInRange(s: State, p: int)
    requires Shaped(s) && 0 <= p < PIECE_COUNT
    ensures 0 <= SeenAt(s, p) < SOURCE_COUNT
  {
  }

  lemma SeenBelowGrows(s: State, n: int, source: int)
    requires 0 <= n < |s.pos|
    ensures SeenBelow(s, n + 1, source) <==> SeenBelow(s, n, source) || SeenAt(s, n) == source
  {
    hide SeenAt;
  }

  lemma ShowsOneMore(e: seq<int>, s: State, n: int)
    requires Agree(s) && ShowsFirst(e, s, n) && n < PIECE_COUNT
    ensures 0 <= SeenAt(s, n) < SOURCE_COUNT && ShowsFirst(WithRow(e, SeenAt(s, n), PieceRow(s, n)), s, n + 1)
  {
    hide RowAt, WithRow, PieceRow, SeenAt, SeenBelow;
    SeenInRange(s, n);
    var next := WithRow(e, SeenAt(s, n), PieceRow(s, n));
    forall p | 0 <= p < n + 1
      ensures 0 <= SeenAt(s, p) < SOURCE_COUNT && RowAt(next, SeenAt(s, p)) == PieceRow(s, p)
    {
      SeenInRange(s, p);
      if p < n {
        EarlierRowKept(e, s, n, p);
      } else {
        RowAfterUpdate(e, SeenAt(s, n), PieceRow(s, n), SeenAt(s, n));
      }
    }
    forall source | 0 <= source < SOURCE_COUNT && !SeenBelow(s, n + 1, source)
      ensures RowAt(next, source) == EMPTY_ROW
    {
      EmptyRowKept(e, s, n, source);
    }
  }

  method WriteObservation(s: State) returns (e: seq<int>)
    requires Agree(s)
    ensures Shows(e, s)
  {
    hide PieceRow, RowAt, WithRow, SeenAt, ShowsFirst;
    e := seq(VALUE_COUNT, _ => 0);
    NothingShown(e, s);
    for piece := 0 to PIECE_COUNT
      invariant |e| == VALUE_COUNT && ShowsFirst(e, s, piece)
    {
      ShowsOneMore(e, s, piece);
      e := WithRow(e, SeenAt(s, piece), PieceRow(s, piece));
    }
  }

  lemma NothingShown(e: seq<int>, s: State)
    requires Shaped(s) && e == seq(VALUE_COUNT, _ => 0)
    ensures ShowsFirst(e, s, 0)
  {
    hide PieceRow, SeenAt;
  }

  /** The values on the wire: five for the forms, two for the origin and two for the owner, own side first, at the
      place where the player to move sees the piece; zeros where no piece is seen. */
  lemma ShownInWords(e: seq<int>, s: State, p: int)
    requires Shows(e, s) && 0 <= p < 8
    ensures Shaped(s) && |e| == 180
    ensures var seen := if s.sideToMove.North? && s.pos[p] < 12 then 11 - s.pos[p] else s.pos[p];
            0 <= 9 * seen <= 171
            && e[9 * seen] == Flag(s.mask[p].chick) && e[9 * seen + 1] == Flag(s.mask[p].giraffe)
            && e[9 * seen + 2] == Flag(s.mask[p].elephant) && e[9 * seen + 3] == Flag(s.mask[p].lion)
            && e[9 * seen + 4] == Flag(s.mask[p].hen)
            && e[9 * seen + 5] == Flag(s.origin[p] == s.sideToMove)
            && e[9 * seen + 6] == Flag(s.origin[p] != s.sideToMove)
            && e[9 * seen + 7] == Flag(s.owner[p] == s.sideToMove)
            && e[9 * seen + 8] == Flag(s.owner[p] != s.sideToMove)
  {
    hide RowAt, PieceRow, SeenBelow, SeenAt, Flag;
    SeenInWords(s, p);
    ValuesOfRow(e, SeenAt(s, p));
    PieceRowInWords(s, p);
  }

  lemma SeenInWords(s: State, p: int)
    requires Shaped(s) && 0 <= p < 8
    ensures SeenAt(s, p) == if s.sideToMove.North? && s.pos[p] < 12 then 11 - s.pos[p] else s.pos[p]
    ensures 0 <= SeenAt(s, p) < 20
  {
  }

  lemma PieceRowInWords(s: State, p: int)
    requires |s.mask| == |s.owner| == |s.origin| == PIECE_COUNT && 0 <= p < PIECE_COUNT
    ensures PieceRow(s, p) ==
              [Flag(s.mask[p].chick), Flag(s.mask[p].giraffe), Flag(s.mask[p].elephant), Flag(s.mask[p].lion),
               Flag(s.mask[p].hen), Flag(s.origin[p] == s.sideToMove), Flag(s.origin[p] != s.sideToMove),
               Flag(s.owner[p] == s.sideToMove), Flag(s.owner[p] != s.sideToMove)]
  {
  }

  lemma ValuesOfRow(e: seq<int>, source: int)
    requires |e| == VALUE_COUNT && 0 <= source < SOURCE_COUNT
    ensures RowAt(e, source) == [e[9 * source], e[9 * source + 1], e[9 * source + 2], e[9 * source + 3],
                                 e[9 * source + 4], e[9 * source + 5], e[9 * source + 6], e[9 * source + 7],
                                 e[9 * source + 8]]
  {
  }

  lemma NothingElseShown(e: seq<int>, s: State, place: int, field: int)
    requires Shows(e, s) && Agree(s) && 0 <= place < 20 && 0 <= field < 9
    requires forall p :: 0 <= p < 8 ==>
               place != if s.sideToMove.North? && s.pos[p] < 12 then 11 - s.pos[p] else s.pos[p]
    ensures |e| == 180 && e[9 * place + field] == 0
  {
    assert !SeenBelow(s, PIECE_COUNT, place);
    assert RowAt(e, place)[field] == e[FIELDS * place + field];
    hide PieceRow;
  }

  // ---------------------------------------------------------------- reading

  predicate Occupied(e: seq<int>, source: int)
    requires |e| == VALUE_COUNT && 0 <= source < SOURCE_COUNT
  {
    RowAt(e, source) != EMPTY_ROW
  }

  predicate Belongs(e: seq<int>, source: int, side: Side)
    requires |e| == VALUE_COUNT && 0 <= source < SOURCE_COUNT
  {
    Occupied(e, source) && RowOrigin(RowAt(e, source)) == side
  }

  /** How many rows before a source belong to an origin. */
  function CountRows(e: seq<int>, side: Side, n: int): (c: nat)
    requires |e| == VALUE_COUNT && 0 <= n <= SOURCE_COUNT
    ensures c <= n
  {
    if n == 0 then 0 else CountRows(e, side, n - 1) + if Belongs(e, n - 1, side) then 1 else 0
  }

  /** The number of the piece a row describes: own origin first, each origin in source order. */
  function PieceAt(e: seq<int>, source: int): int
    requires |e| == VALUE_COUNT && 0 <= source < SOURCE_COUNT
  {
    var side := RowOrigin(RowAt(e, source));
    PIECES_PER_ORIGIN * SideIndex(side) + CountRows(e, side, source)
  }

  ghost predicate RowsValid(e: seq<int>, n: int)
    requires |e| == VALUE_COUNT && 0 <= n <= SOURCE_COUNT
  {
    forall source :: 0 <= source < n && Occupied(e, source) ==> ValidRow(RowAt(e, source))
  }

  /** What the reader demands of an observation before it propagates. */
  ghost predicate WellFormed(e: seq<int>)
  {
    && |e| == VALUE_COUNT && RowsValid(e, SOURCE_COUNT)
    && CountRows(e, South, SOURCE_COUNT) == PIECES_PER_ORIGIN && CountRows(e, North, SOURCE_COUNT) == PIECES_PER_ORIGIN
  }

  lemma {:induction false} CountGrows(e: seq<int>, side: Side, j: int, n: int)
    requires |e| == VALUE_COUNT && 0 <= j <= n <= SOURCE_COUNT
    ensures CountRows(e, side, j) <= CountRows(e, side, n)
    ensures j < n && Belongs(e, j, side) ==> CountRows(e, side, j) < CountRows(e, side, n)
    decreases n - j
  {
    hide Belongs;
    if j < n {
      CountGrows(e, side, j, n - 1);
    }
  }

  /** The k-th row of an origin. */
  lemma {:induction false} RowOfCount(e: seq<int>, side: Side, k: nat, n: int) returns (source: int)
    requires |e| == VALUE_COUNT && 0 <= n <= SOURCE_COUNT && k < CountRows(e, side, n)
    ensures 0 <= source < n && Belongs(e, source, side) && CountRows(e, side, source) == k
    decreases n
  {
    hide Belongs;
    if k < CountRows(e, side, n - 1) {
      source := RowOfCount(e, side, k, n - 1);
    } else {
      source := n - 1;
    }
  }

  /** What the row of a piece says of it. */
  ghost predicate ReadsPiece(e: seq<int>, s: State, source: int)
    requires |e| == VALUE_COUNT && 0 <= source < SOURCE_COUNT
  {
    var p, r := PieceAt(e, source), RowAt(e, source);
    && 0 <= p < PIECE_COUNT && |s.pos| == |s.mask| == |s.owner| == |s.origin| == PIECE_COUNT
    && s.pos[p] == source && s.mask[p] == RowMask(r) && s.owner[p] == RowOwner(r) && s.origin[p] == RowOrigin(r)
  }

  /** The state an observation describes before propagation: every row is a piece, every piece a row. */
  ghost predicate Reads(e: seq<int>, s: State)
  {
    && |e| == VALUE_COUNT && Agree(s) && s.sideToMove == South && s.terminal == Ongoing && s.winner == NO_WINNER
    && (forall source :: 0 <= source < SOURCE_COUNT && Occupied(e, source) ==> ReadsPiece(e, s, source))
    && (forall p :: 0 <= p < PIECE_COUNT ==> Occupied(e, s.pos[p]) && PieceAt(e, s.pos[p]) == p)
  }

  /** The first n rows have been read into the state. */
  ghost predicate RowsRead(e: seq<int>, s: State, n: int)
  {
    && |e| == VALUE_COUNT && 0 <= n <= SOURCE_COUNT && RowsValid(e, n)
    && |s.board| == BOARD_SIZE && |s.pos| == |s.mask| == |s.owner| == |s.origin| == PIECE_COUNT
    && CountRows(e, South, n) <= PIECES_PER_ORIGIN && CountRows(e, North, n) <= PIECES_PER_ORIGIN
    && (forall source :: 0 <= source < n && Occupied(e, source) ==> ReadsPiece(e, s, source))
    && (forall square :: 0 <= square < BOARD_SIZE ==>
          s.board[square] == if square < n && Occupied(e, square) then PieceAt(e, square) else EMPTY_SQUARE)
  }

  function WithPiece(e: seq<int>, s: State, source: int): State
    requires |e| == VALUE_COUNT && 0 <= source < SOURCE_COUNT && 0 <= PieceAt(e, source) < PIECE_COUNT
    requires |s.board| == BOARD_SIZE && |s.pos| == |s.mask| == |s.owner| == |s.origin| == PIECE_COUNT
  {
    var p, r := PieceAt(e, source), RowAt(e, source);
    s.(mask := s.mask[p := RowMask(r)], pos := s.pos[p := source], owner := s.owner[p := RowOwner(r)],
       origin := s.origin[p := RowOrigin(r)],
       board := if source < BOARD_SIZE then s.board[source := p] else s.board)
  }

  /** A row gets a number no earlier row has. */
  lemma NumbersApart(e: seq<int>, j: int, n: int)
    requires |e| == VALUE_COUNT && 0 <= j < n < SOURCE_COUNT && Occupied(e, j) && Occupied(e, n)
    requires CountRows(e, South, n) <= PIECES_PER_ORIGIN && CountRows(e, North, n) <= PIECES_PER_ORIGIN
    requires CountRows(e, RowOrigin(RowAt(e, n)), n) < PIECES_PER_ORIGIN
    ensures PieceAt(e, j) != PieceAt(e, n)
  {
    hide CountRows, RowAt;
    var side, other := RowOrigin(RowAt(e, n)), RowOrigin(RowAt(e, j));
    CountGrows(e, other, j, n);
    CountGrows(e, South, j, n);
    CountGrows(e, North, j, n);
    assert (side.South? || side.North?) && (other.South? || other.North?);
  }

  lemma EarlierPieceKept(e: seq<int>, s: State, n: int, source: int)
    requires RowsRead(e, s, n) && 0 <= source < n < SOURCE_COUNT && Occupied(e, n) && Occupied(e, source)
    requires 0 <= PieceAt(e, n) < PIECE_COUNT && CountRows(e, RowOrigin(RowAt(e, n)), n) < PIECES_PER_ORIGIN
    ensures ReadsPiece(e, WithPiece(e, s, n), source)
  {
    hide RowAt, RowMask, RowOwner, RowOrigin, CountRows, PieceAt, RowsValid;
    NumbersApart(e, source, n);
    assert ReadsPiece(e, s, source);
  }

  lemma NewPieceRead(e: seq<int>, s: State, n: int)
    requires RowsRead(e, s, n) && n < SOURCE_COUNT && 0 <= PieceAt(e, n) < PIECE_COUNT
    ensures ReadsPiece(e, WithPiece(e, s, n), n)
  {
    hide RowAt, RowMask, RowOwner, RowOrigin, CountRows, PieceAt, RowsValid;
  }

  lemma ReadingAddsPiece(e: seq<int>, s: State, n: int)
    requires RowsRead(e, s, n) && n < SOURCE_COUNT && Occupied(e, n) && ValidRow(RowAt(e, n))
    requires CountRows(e, RowOrigin(RowAt(e, n)), n) < PIECES_PER_ORIGIN
    ensures 0 <= PieceAt(e, n) < PIECE_COUNT && RowsRead(e, WithPiece(e, s, n), n + 1)
  {
    hide RowAt, RowMask, RowOwner, RowOrigin, ValidRow, CountRows, ReadsPiece, Occupied, PieceAt;
    NumberInRange(e, n);
    forall source | 0 <= source < n && Occupied(e, source)
      ensures ReadsPiece(e, WithPiece(e, s, n), source)
    {
      EarlierPieceKept(e, s, n, source);
    }
    NewPieceRead(e, s, n);
  }

  lemma NumberInRange(e: seq<int>, n: int)
    requires |e| == VALUE_COUNT && 0 <= n < SOURCE_COUNT
    requires CountRows(e, South, n) <= PIECES_PER_ORIGIN && CountRows(e, North, n) <= PIECES_PER_ORIGIN
    requires CountRows(e, RowOrigin(RowAt(e, n)), n) < PIECES_PER_ORIGIN
    ensures 0 <= PieceAt(e, n) < PIECE_COUNT
    ensures CountRows(e, South, n + 1) <= PIECES_PER_ORIGIN && CountRows(e, North, n + 1) <= PIECES_PER_ORIGIN
  {
    hide RowAt, CountRows;
    CountStep(e, South, n);
    CountStep(e, North, n);
  }

  lemma ReadingSkips(e: seq<int>, s: State, n: int)
    requires RowsRead(e, s, n) && n < SOURCE_COUNT && !Occupied(e, n)
    ensures RowsRead(e, s, n + 1)
  {
    hide RowAt, RowMask, RowOwner, ValidRow, PieceAt;
    CountStep(e, South, n);
    CountStep(e, North, n);
  }

  lemma CountStep(e: seq<int>, side: Side, n: int)
    requires |e| == VALUE_COUNT && 0 <= n < SOURCE_COUNT
    ensures CountRows(e, side, n + 1) == CountRows(e, side, n) + if Belongs(e, n, side) then 1 else 0
  {
    hide Belongs;
  }

  lemma TooManyRows(e: seq<int>, n: int)
    requires |e| == VALUE_COUNT && 0 <= n < SOURCE_COUNT && Occupied(e, n)
    requires CountRows(e, RowOrigin(RowAt(e, n)), n) >= PIECES_PER_ORIGIN
    ensures !WellFormed(e)
  {
    hide RowAt;
    var side := RowOrigin(RowAt(e, n));
    CountStep(e, side, n);
    CountGrows(e, side, n + 1, SOURCE_COUNT);
    assert side.South? || side.North?;
  }

  /** A well-formed observation, fully read, is a placement of all eight pieces. */
  lemma AllRowsRead(e: seq<int>, s: State)
    requires RowsRead(e, s, SOURCE_COUNT) && WellFormed(e)
    requires s.sideToMove == South && s.terminal == Ongoing && s.winner == NO_WINNER
    ensures Reads(e, s)
  {
    hide RowAt, RowMask, RowOwner, RowOrigin, ValidRow, CountRows, PieceAt;
    forall p | 0 <= p < PIECE_COUNT
      ensures 0 <= s.pos[p] < SOURCE_COUNT && Occupied(e, s.pos[p]) && PieceAt(e, s.pos[p]) == p
    {
      var source := RowOfPiece(e, p);
      assert ReadsPiece(e, s, source);
    }
    forall square | 0 <= square < BOARD_SIZE && s.board[square] >= 0
      ensures s.board[square] < PIECE_COUNT && s.pos[s.board[square]] == square
    {
      assert ReadsPiece(e, s, square);
    }
  }

  lemma RowOfPiece(e: seq<int>, p: int) returns (source: int)
    requires WellFormed(e) && 0 <= p < PIECE_COUNT
    ensures 0 <= source < SOURCE_COUNT && Occupied(e, source) && PieceAt(e, source) == p
  {
    hide RowAt, CountRows, RowsValid;
    var side := if p < PIECES_PER_ORIGIN then South else North;
    source := RowOfCount(e, side, p - PIECES_PER_ORIGIN * SideIndex(side), SOURCE_COUNT);
  }

  /** Reads the rows in order, refusing malformed ones; None means that nothing was refused. */
  method ReadRows(e: seq<int>, turn: nat) returns (fault: Option<DecodeError>, s: State)
    ensures fault == Some(WrongSize) <==> |e| != VALUE_COUNT
    ensures fault.None? <==> WellFormed(e)
    ensures fault.None? ==> Reads(e, s) && s.turn == turn % TURN_MODULUS
    ensures fault != Some(Contradiction)
  {
    hide RowAt, RowMask, RowOwner, RowOrigin, CountRows, ReadsPiece, Reads;
    s := State(seq(BOARD_SIZE, _ => EMPTY_SQUARE), seq(PIECE_COUNT, _ => 0), seq(PIECE_COUNT, _ => NO_FORMS),
               seq(PIECE_COUNT, _ => South), seq(PIECE_COUNT, _ => South),
               South, turn % TURN_MODULUS, Ongoing, NO_WINNER,
               Hash([], [], [], [], South, 0, Ongoing, NO_WINNER));
    if |e| != VALUE_COUNT {
      return Some(WrongSize), s;
    }
    var counts := map[South := 0, North := 0];
    NothingRead(e, s);
    var source := 0;
    while source < SOURCE_COUNT
      invariant RowsRead(e, s, source) && counts.Keys == {South, North}
      invariant counts[South] == CountRows(e, South, source) && counts[North] == CountRows(e, North, source)
      invariant s.sideToMove == South && s.terminal == Ongoing && s.winner == NO_WINNER && s.turn == turn % TURN_MODULUS
    {
      var row := RowAt(e, source);
      if row != EMPTY_ROW {
        if !Binary(row) {
          return Some(NotBinary), s;
        }
        if !OneHot(row) {
          return Some(NotOneHot), s;
        }
        var origin := RowOrigin(row);
        assert origin.South? || origin.North?;
        if counts[origin] >= PIECES_PER_ORIGIN {
          TooManyRows(e, source);
          return Some(TooManyPieces), s;
        }
        var piece := PIECES_PER_ORIGIN * SideIndex(origin) + counts[origin];
        assert piece == PieceAt(e, source);
        if RowMask(row).IsEmpty() {
          return Some(EmptyIdentity), s;
        }
        ReadingAddsPiece(e, s, source);
        s := s.(mask := s.mask[piece := RowMask(row)], pos := s.pos[piece := source],
                owner := s.owner[piece := RowOwner(row)], origin := s.origin[piece := origin],
                board := if source < BOARD_SIZE then s.board[source := piece] else s.board);
        counts := counts[origin := counts[origin] + 1];
      } else {
        ReadingSkips(e, s, source);
      }
      CountStep(e, South, source);
      CountStep(e, North, source);
      source := source + 1;
    }
    if counts[South] != PIECES_PER_ORIGIN || counts[North] != PIECES_PER_ORIGIN {
      return Some(Incomplete), s;
    }
    AllRowsRead(e, s);
    fault := None;
  }

  lemma NothingRead(e: seq<int>, s: State)
    requires |e| == VALUE_COUNT && |s.pos| == |s.mask| == |s.owner| == |s.origin| == PIECE_COUNT
    requires s.board == seq(BOARD_SIZE, _ => EMPTY_SQUARE)
    ensures RowsRead(e, s, 0) && CountRows(e, South, 0) == 0 && CountRows(e, North, 0) == 0
  {
    hide RowAt, PieceAt, ReadsPiece;
  }

  /** What is read off the wire for a piece, and how the pieces are numbered: the player's own origin first, each
      origin in the order of the rows. */
  lemma ReadInWords(e: seq<int>, s: State, p: int)
    requires Reads(e, s) && WellFormed(e) && 0 <= p < 8
    ensures |e| == 180 && Shaped(s) && s.sideToMove == South
    ensures var row := 9 * s.pos[p];
            && s.mask[p] == Mask(e[row] == 1, e[row + 1] == 1, e[row + 2] == 1, e[row + 3] == 1, e[row + 4] == 1)
            && s.origin[p] == (if e[row + 5] == 1 then South else North)
            && s.owner[p] == (if e[row + 7] == 1 then South else North)
    ensures s.origin[p] == South <==> p < 4
    ensures forall q :: p < q < 8 && s.origin[q] == s.origin[p] ==> s.pos[p] < s.pos[q]
  {
    hide CountRows, WellFormed, RowsValid;
    ReadsPlacement(e, s);
    RowOfRead(e, s, p);
    forall q | p < q < 8 && s.origin[q] == s.origin[p]
      ensures s.pos[p] < s.pos[q]
    {
      RowOfRead(e, s, q);
      CountGrows(e, s.origin[p], s.pos[q], if s.pos[q] <= s.pos[p] then s.pos[p] else s.pos[q]);
    }
  }

  lemma ReadsPlacement(e: seq<int>, s: State)
    requires Reads(e, s)
    ensures |e| == 180 && Shaped(s) && s.sideToMove == South
  {
    hide ReadsPiece, RowAt, PieceAt;
  }

  /** The row of a piece that was read, its number, and its values. */
  lemma RowOfRead(e: seq<int>, s: State, p: int)
    requires Reads(e, s) && WellFormed(e) && 0 <= p < 8 && |e| == 180 && Shaped(s)
    ensures var row := 9 * s.pos[p];
            && s.mask[p] == Mask(e[row] == 1, e[row + 1] == 1, e[row + 2] == 1, e[row + 3] == 1, e[row + 4] == 1)
            && s.origin[p] == (if e[row + 5] == 1 then South else North)
            && s.owner[p] == (if e[row + 7] == 1 then South else North)
    ensures Belongs(e, s.pos[p], s.origin[p]) && CountRows(e, s.origin[p], s.pos[p]) < 4
    ensures p == (if s.origin[p].South? then 0 else 4) + CountRows(e, s.origin[p], s.pos[p])
  {
    var source := s.pos[p];
    var r := RowAt(e, source);
    assert ReadsPiece(e, s, source) && ValidRow(r);
    ValuesOfRow(e, source);
    hide CountRows, RowAt;
    CountGrows(e, s.origin[p], source, SOURCE_COUNT);
    assert s.origin[p].South? || s.origin[p].North?;
  }

  /** What an observation and a turn say: the placement read, closed under the quota rule. */
  ghost predicate Decodes(e: seq<int>, turn: nat, t: State)
  {
    exists raw :: Reads(e, raw) && raw.turn == turn % TURN_MODULUS && DecodedFrom(raw, turn, t)
  }

  ghost predicate DecodedFrom(raw: State, turn: nat, t: State)
  {
    && |raw.mask| == PIECE_COUNT && Satisfiable(raw.origin, raw.mask)
    && t == Rehashed(raw.(mask := Closure(raw.origin, raw.mask),
                          terminal := if turn >= TURN_LIMIT then Draw else Ongoing))
  }

  /** The engine's reader. It fails exactly on malformed or contradictory observations. */
  method StateFromObservation(e: seq<int>, turn: nat, mode: PropagationMode, table: seq<Entry>)
    returns (r: Result<State>)
    requires IsLineageTable(table)
    ensures r.Ok? ==> WellFormed(e) && Decodes(e, turn, r.value)
    ensures r.Ok? ==>
              && r.value.sideToMove == South && r.value.turn == turn % 65536 && r.value.winner == -1
              && r.value.terminal == (if turn >= 256 then Draw else Ongoing) && r.value.hash == ZobristHash(r.value)
              && Closed(r.value.origin, r.value.mask)
    ensures !WellFormed(e) ==> r.Err? && r.error != Contradiction
    ensures WellFormed(e) && r.Err? ==>
              r.error == Contradiction && exists raw :: Reads(e, raw) && !Satisfiable(raw.origin, raw.mask)
  {
    hide Reads, WellFormed, Satisfiable, Closure, Closed;
    var fault, raw := ReadRows(e, turn);
    if fault.Some? {
      return Err(fault.value);
    }
    ReadsIsShaped(e, raw);
    var state := new Position(raw);
    var ok, passes := Propagate(state, mode, table);
    if !ok {
      return Err(Contradiction);
    }
    if turn >= TURN_LIMIT {
      state.terminal := Draw;
    }
    state.RecomputeHash();
    ClosureIsClosed(raw.origin, raw.mask);
    assert DecodedFrom(raw, turn, state.Snapshot());
    r := Ok(state.Snapshot());
  }

  lemma ReadsIsShaped(e: seq<int>, s: State)
    requires Reads(e, s)
    ensures Shaped(s) && s.terminal == Ongoing && s.sideToMove == South && s.winner == NO_WINNER
  {
    hide ReadsPiece, RowAt;
  }
}
