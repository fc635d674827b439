/** The text form of a state. Writing forgets the board, the verdict and the hash, and reading closes the
    masks under the quota rule, so a state comes back as it was exactly when those carry no more than the
    text implies.
 */
module StateText {
  import opened Animals
  import opened States
  import opened Propagation
  import opened Propagators
  import opened LineageTables
  import opened Invariants
  import opened Outcomes
  import opened Streams

  // ---------------------------------------------------------------- codes

  function SideCode(side: Side): string {
    if side.South? then "S" else "N"
  }

  function ReadSide(word: string): Option<Side> {
    if word == "S" || word == "s" then Some(South) else if word == "N" || word == "n" then Some(North) else None
  }

  function FormOfCode(c: char): Option<Mask> {
    if c in ['C', 'c'] then Some(NO_FORMS.(chick := true))
    else if c in ['E', 'e'] then Some(NO_FORMS.(elephant := true))
    else if c in ['G', 'g'] then Some(NO_FORMS.(giraffe := true))
    else if c in ['L', 'l'] then Some(NO_FORMS.(lion := true))
    else if c in ['H', 'h'] then Some(NO_FORMS.(hen := true))
    else None
  }

  function Join(m: Mask, n: Mask): Mask {
    Mask(m.chick || n.chick, m.giraffe || n.giraffe, m.elephant || n.elephant, m.lion || n.lion, m.hen || n.hen)
  }

  function ReadMask(word: string): Option<Mask> {
    if word == [] then Some(NO_FORMS)
    else
      var first :- FormOfCode(word[0]);
      var rest :- ReadMask(word[1..]);
      Some(Join(first, rest))
  }

  function Letter(present: bool, c: char): string {
    if present then [c] else []
  }

  function MaskLetters(m: Mask): string {
    Letter(m.chick, 'C')
    + (Letter(m.giraffe, 'G') + (Letter(m.elephant, 'E') + (Letter(m.lion, 'L') + Letter(m.hen, 'H'))))
  }

  function MaskText(m: Mask): string {
    if MaskLetters(m) == [] then "-" else MaskLetters(m)
  }

  lemma LetterReadBack(present: bool, c: char, tail: string, form: Mask, m: Mask)
    requires FormOfCode(c) == Some(form) && ReadMask(tail) == Some(m)
    ensures ReadMask(Letter(present, c) + tail) == Some(if present then Join(form, m) else m)
  {
    var t := Letter(present, c) + tail;
    if present {
      assert t[0] == c && t[1..] == tail;
    } else {
      assert t == tail;
    }
  }

  lemma NothingReads()
    ensures ReadMask([]) == Some(NO_FORMS)
  {
  }

  lemma LettersReadBack(m: Mask)
    ensures ReadMask(MaskLetters(m)) == Some(m)
  {
    hide ReadMask;
    NothingReads();
    var t1 := Letter(m.hen, 'H');
    assert t1 == t1 + [];
    LetterReadBack(m.hen, 'H', [], NO_FORMS.(hen := true), NO_FORMS);
    var m1 := NO_FORMS.(hen := m.hen);
    LetterReadBack(m.lion, 'L', t1, NO_FORMS.(lion := true), m1);
    var m2, t2 := m1.(lion := m.lion), Letter(m.lion, 'L') + t1;
    LetterReadBack(m.elephant, 'E', t2, NO_FORMS.(elephant := true), m2);
    var m3, t3 := m2.(elephant := m.elephant), Letter(m.elephant, 'E') + t2;
    LetterReadBack(m.giraffe, 'G', t3, NO_FORMS.(giraffe := true), m3);
    var m4, t4 := m3.(giraffe := m.giraffe), Letter(m.giraffe, 'G') + t3;
    LetterReadBack(m.chick, 'C', t4, NO_FORMS.(chick := true), m4);
  }

  lemma LettersAreWord(m: Mask)
    ensures MaskLetters(m) == [] <==> m.IsEmpty()
    ensures forall k :: 0 <= k < |MaskLetters(m)| ==> !IsSpace(MaskLetters(m)[k])
  {
  }

  /** Writing a mask and reading it back; only the empty mask has no readable text. */
  lemma MaskReadBack(m: Mask)
    ensures IsWord(MaskText(m))
    ensures ReadMask(MaskText(m)) == if m.IsEmpty() then None else Some(m)
  {
    hide ReadMask, MaskLetters;
    LettersReadBack(m);
    LettersAreWord(m);
    DashIsNoMask();
  }

  lemma DashIsNoMask()
    ensures ReadMask("-").None?
  {
    assert FormOfCode("-"[0]).None?;
  }

  function PositionText(position: int): string
    requires 0 <= position < SOURCE_COUNT
  {
    if position >= FIRST_HAND_SLOT then ['H'] + Digits(position - FIRST_HAND_SLOT) else Digits(position)
  }

  /** A position word: H, for the slot of the piece's own number, H and a slot, or a square. */
  function ReadPosition(word: string, id: int): Option<int> {
    if word != [] && word[0] in ['H', 'h'] then
      if |word| == 1 then Some(FIRST_HAND_SLOT + id)
      else
        var slot :- LeadingInt(word[1..]);
        if 0 <= slot.value < PIECE_COUNT then Some(FIRST_HAND_SLOT + slot.value) else None
    else
      var square :- LeadingInt(word);
      if 0 <= square.value < BOARD_SIZE then Some(square.value) else None
  }

  lemma PositionReadBack(position: int, id: int)
    requires 0 <= position < SOURCE_COUNT
    ensures IsWord(PositionText(position)) && ReadPosition(PositionText(position), id) == Some(position)
  {
    var text := PositionText(position);
    if position >= FIRST_HAND_SLOT {
      var slot := position - FIRST_HAND_SLOT;
      assert text[1..] == Digits(slot) == Digits(slot) + [];
      DigitsLead(slot, []);
      DigitsAreWord(slot);
    } else {
      assert text == Digits(position) + [];
      DigitsLead(position, []);
      DigitsAreWord(position);
    }
  }

  // ---------------------------------------------------------------- writing

  function PieceText(s: State, p: int): string
    requires Lengths(s) && 0 <= p < PIECE_COUNT
  {
    Digits(p) + (" " + (SideCode(s.owner[p]) + (" " + (SideCode(s.origin[p]) + (" " +
      (PositionText(s.pos[p]) + (" " + MaskText(s.mask[p]))))))))
  }

  predicate Lengths(s: State) {
    && |s.pos| == |s.mask| == |s.owner| == |s.origin| == PIECE_COUNT
    && forall p :: 0 <= p < PIECE_COUNT ==> 0 <= s.pos[p] < SOURCE_COUNT
  }

  /** The piece lines from the p-th on, each behind its line break. */
  function LinesText(s: State, p: int): string
    requires Lengths(s) && 0 <= p <= PIECE_COUNT
    decreases PIECE_COUNT - p
  {
    if p == PIECE_COUNT then "\n" else "\n" + (PieceText(s, p) + LinesText(s, p + 1))
  }

  function StateAsText(s: State): string
    requires Lengths(s)
  {
    SideCode(s.sideToMove) + (" " + (Digits(s.turn) + LinesText(s, 0)))
  }

  method WriteState(s: State) returns (text: string)
    requires Lengths(s)
    ensures text == StateAsText(s)
  {
    hide PieceText;
    text := SideCode(s.sideToMove) + " " + Digits(s.turn) + "\n";
    for piece := 0 to PIECE_COUNT
      invariant text + LinesText(s, piece)[1..] == StateAsText(s)
    {
      var line := PieceText(s, piece);
      assert LinesText(s, piece)[1..] == line + LinesText(s, piece + 1);
      assert LinesText(s, piece + 1) == "\n" + LinesText(s, piece + 1)[1..];
      assert text + (line + LinesText(s, piece + 1)) == (text + line + "\n") + LinesText(s, piece + 1)[1..];
      text := text + line + "\n";
    }
  }

  // ---------------------------------------------------------------- reading

  datatype Header = Header(side: Side, turn: nat)

  datatype PieceLine = PieceLine(id: int, owner: Side, origin: Side, position: int, mask: Mask)

  function ReadHeader(text: string): Option<Read<Header>> {
    var side :- ReadWord(text);
    var turn :- ReadInt(side.rest);
    if turn.value < 0 || turn.value > TURN_LIMIT then None
    else
      var mover :- ReadSide(side.value);
      Some(Read(Header(mover, turn.value), turn.rest))
  }

  function ReadLine(text: string): Option<Read<PieceLine>> {
    var id :- ReadInt(text);
    var owner :- ReadWord(id.rest);
    var origin :- ReadWord(owner.rest);
    var position :- ReadWord(origin.rest);
    var mask :- ReadWord(position.rest);
    if id.value < 0 || id.value >= PIECE_COUNT then None
    else
      var ownerSide :- ReadSide(owner.value);
      var originSide :- ReadSide(origin.value);
      var place :- ReadPosition(position.value, id.value);
      var forms :- ReadMask(mask.value);
      Some(Read(PieceLine(id.value, ownerSide, originSide, place, forms), mask.rest))
  }

  predicate Building(s: State) {
    && |s.board| == BOARD_SIZE && |s.pos| == |s.mask| == |s.owner| == |s.origin| == PIECE_COUNT
    && forall p :: 0 <= p < PIECE_COUNT ==> 0 <= s.pos[p]
  }

  function StartState(h: Header): (s: State)
    ensures Building(s)
  {
    State(seq(BOARD_SIZE, _ => EMPTY_SQUARE),
          seq(PIECE_COUNT, p => FIRST_HAND_SLOT + p), seq(PIECE_COUNT, _ => NO_FORMS),
          seq(PIECE_COUNT, _ => South), seq(PIECE_COUNT, _ => South), h.side, h.turn, Ongoing, NO_WINNER,
          Hash([], [], [], [], South, 0, Ongoing, NO_WINNER))
  }

  /** A line may be used once for each piece, and a square for one piece. */
  predicate Fresh(s: State, seen: seq<bool>, line: PieceLine) {
    && |seen| == PIECE_COUNT && |s.board| == BOARD_SIZE && 0 <= line.id < PIECE_COUNT && !seen[line.id]
    && 0 <= line.position && (line.position < BOARD_SIZE ==> s.board[line.position] == EMPTY_SQUARE)
  }

  function WithLine(s: State, line: PieceLine): (r: State)
    requires Building(s) && 0 <= line.id < PIECE_COUNT && 0 <= line.position
    ensures Building(r)
  {
    s.(owner := s.owner[line.id := line.owner], origin := s.origin[line.id := line.origin],
       pos := s.pos[line.id := line.position], mask := s.mask[line.id := line.mask],
       board := if line.position < BOARD_SIZE then s.board[line.position := line.id] else s.board)
  }

  function ReadPieces(text: string, count: nat, s: State, seen: seq<bool>): (r: Option<State>)
    requires Building(s) && |seen| == PIECE_COUNT
    ensures r.Some? ==> Building(r.value)
    decreases count
  {
    if count == 0 then Some(s)
    else
      var line :- ReadLine(text);
      if !Fresh(s, seen, line.value) then None
      else ReadPieces(line.rest, count - 1, WithLine(s, line.value), seen[line.value.id := true])
  }

  /** What becomes of the placement read: closed, given its verdict and hash, and checked. */
  ghost function Accepted(raw: State): Option<State>
    requires Building(raw)
  {
    if !Satisfiable(raw.origin, raw.mask) then None
    else
      var t := Rehashed(raw.(mask := Closure(raw.origin, raw.mask),
                             terminal := if raw.turn >= TURN_LIMIT then Draw else raw.terminal));
      if Agree(t) then Some(t) else None
  }

  ghost function Parsed(text: string): Option<State> {
    var header :- ReadHeader(text);
    var raw :- ReadPieces(header.rest, PIECE_COUNT, StartState(header.value), seq(PIECE_COUNT, _ => false));
    Accepted(raw)
  }

  /** The validity check on its own: placement, masks, four pieces per origin, quota rule and hash. */
  method ValidateState(s: State, mode: PropagationMode, table: seq<Entry>) returns (ok: bool)
    requires Building(s) && IsLineageTable(table)
    ensures ok <==> Agree(s) && Satisfiable(s.origin, s.mask) && s.hash == ZobristHash(s)
  {
    hide Satisfiable, Agree;
    ok := BoardConsistent(s);
    if !ok {
      return;
    }
    for p := 0 to PIECE_COUNT
    {
      if s.mask[p].IsEmpty() {
        EmptyMaskContradicts(s.origin, s.mask, p);
        return false;
      }
    }
    var south, southPieces := CollectOriginPieces(s.origin, South);
    var north, northPieces := CollectOriginPieces(s.origin, North);
    if Satisfiable(s.origin, s.mask) {
      SatisfiableGroupsOfFour(s.origin, s.mask);
    }
    if !south || !north {
      return false;
    }
    var copy := new Position(s);
    var passes;
    ok, passes := Propagate(copy, mode, table);
    ok := ok && s.hash == ZobristHash(s);
  }

  method ParseState(text: string, mode: PropagationMode, table: seq<Entry>) returns (r: Option<State>)
    requires IsLineageTable(table)
    ensures r == Parsed(text)
  {
    hide ReadHeader, ReadLine, Satisfiable, Agree, Closure, Fresh, WithLine;
    var header := ReadHeader(text);
    if header.None? {
      return None;
    }
    var s, rest := StartState(header.value.value), header.value.rest;
    var seen := seq(PIECE_COUNT, _ => false);
    for line := 0 to PIECE_COUNT
      invariant Building(s) && |seen| == PIECE_COUNT
      invariant ReadPieces(header.value.rest, PIECE_COUNT, StartState(header.value.value),
                           seq(PIECE_COUNT, _ => false)) ==
                  ReadPieces(rest, PIECE_COUNT - line, s, seen)
    {
      var next := ReadLine(rest);
      if next.None? || !Fresh(s, seen, next.value.value) {
        return None;
      }
      FreshLineFits(s, seen, next.value.value);
      s, seen := WithLine(s, next.value.value), seen[next.value.value.id := true];
      rest := next.value.rest;
    }
    var state := new Position(s);
    var ok, passes := Propagate(state, mode, table);
    if !ok {
      return None;
    }
    if state.turn >= TURN_LIMIT {
      state.terminal := Draw;
    }
    state.RecomputeHash();
    ClosureIsClosed(s.origin, s.mask);
    var valid := ValidateState(state.Snapshot(), mode, table);
    r := if valid then Some(state.Snapshot()) else None;
  }

  lemma FreshLineFits(s: State, seen: seq<bool>, line: PieceLine)
    requires Fresh(s, seen, line)
    ensures 0 <= line.id < PIECE_COUNT && 0 <= line.position
  {
  }

  // ---------------------------------------------------------------- the accepted spellings

  lemma LetterInWords(c: char)
    ensures FormOfCode(c).Some? <==> c in {'C', 'c', 'G', 'g', 'E', 'e', 'L', 'l', 'H', 'h'}
    ensures FormOfCode(c).Some? ==>
              FormOfCode(c).value == Mask(c in {'C', 'c'}, c in {'G', 'g'}, c in {'E', 'e'}, c in {'L', 'l'},
                                          c in {'H', 'h'})
  {
  }

  /** A mask word is read exactly when it has no letter but the five, in either case, and in any order. */
  lemma {:induction false} MaskInWords(word: string)
    ensures ReadMask(word).Some? <==>
              forall k :: 0 <= k < |word| ==> word[k] in {'C', 'c', 'G', 'g', 'E', 'e', 'L', 'l', 'H', 'h'}
    ensures ReadMask(word).Some? ==>
              var m := ReadMask(word).value;
              && (m.chick <==> 'C' in word || 'c' in word)
              && (m.giraffe <==> 'G' in word || 'g' in word)
              && (m.elephant <==> 'E' in word || 'e' in word)
              && (m.lion <==> 'L' in word || 'l' in word)
              && (m.hen <==> 'H' in word || 'h' in word)
  {
    hide FormOfCode;
    if word == [] {
      assert forall c :: c !in word;
    } else {
      LetterInWords(word[0]);
      MaskInWords(word[1..]);
      InWord(word);
      assert forall k :: 1 <= k < |word| ==> word[k] == word[1..][k - 1];
      assert forall k :: 0 <= k < |word[1..]| ==> word[1..][k] == word[k + 1];
    }
  }

  lemma InWord(word: string)
    requires word != []
    ensures forall c :: c in word <==> c == word[0] || c in word[1..]
  {
    assert word == [word[0]] + word[1..];
  }

  lemma LongHand(letter: char, id: int, k: nat)
    requires letter in {'H', 'h'}
    ensures ReadPosition([letter] + Digits(k), id) == if k < 8 then Some(12 + k) else None
  {
    hide Digits, LeadingInt;
    var d := Digits(k);
    DigitsLead(k, []);
    assert d + [] == d;
    assert ([letter] + d)[1..] == d && ([letter] + d)[0] == letter;
  }

  lemma SquareNumber(id: int, k: nat)
    ensures ReadPosition(Digits(k), id) == if k < 12 then Some(k) else None
  {
    hide Digits, LeadingInt;
    var d := Digits(k);
    DigitsLead(k, []);
    assert d + [] == d;
    assert IsDigit(d[0]);
  }

  /** A position is H for the slot with the piece's own number, H and one of eight slots, or one of twelve
      squares, and written in the long form. */
  lemma PositionInWords(id: int, k: nat)
    ensures ReadPosition("H", id) == ReadPosition("h", id) == Some(12 + id)
    ensures ReadPosition(['H'] + Digits(k), id) == ReadPosition(['h'] + Digits(k), id) ==
              if k < 8 then Some(12 + k) else None
    ensures ReadPosition(Digits(k), id) == if k < 12 then Some(k) else None
    ensures k < 8 ==> PositionText(12 + k) == ['H'] + Digits(k)
    ensures k < 12 ==> PositionText(k) == Digits(k)
  {
    hide Digits, LeadingInt;
    LongHand('H', id, k);
    LongHand('h', id, k);
    SquareNumber(id, k);
  }

  /** A header is a side, in either case, and a turn up to the limit. */
  lemma HeaderInWords(side: string, turn: nat, tail: string)
    requires IsWord(side) && Stops(tail)
    ensures ReadHeader(side + (" " + (Digits(turn) + tail))) ==
              if side in ["S", "s", "N", "n"] && turn <= 256
              then Some(Read(Header(if side in ["N", "n"] then North else South, turn), tail)) else None
  {
    hide ReadInt, ReadWord, Digits, IsWord;
    WordReadBack(' ', side, " " + (Digits(turn) + tail));
    IntReadBack(' ', turn, tail);
  }

  /** A piece line is its number, its owner and origin in either case, a position and a mask. */
  lemma LineInWords(id: nat, owner: string, origin: string, position: string, mask: string, tail: string)
    requires IsWord(owner) && IsWord(origin) && IsWord(position) && IsWord(mask) && Stops(tail)
    ensures ReadLine("\n" + (Digits(id) + (" " + (owner + (" " + (origin + (" " +
              (position + (" " + (mask + tail)))))))))) ==
              if && id < 8 && owner in ["S", "s", "N", "n"] && origin in ["S", "s", "N", "n"]
                 && ReadPosition(position, id).Some? && ReadMask(mask).Some?
              then Some(Read(PieceLine(id, if owner in ["N", "n"] then North else South,
                                       if origin in ["N", "n"] then North else South,
                                       ReadPosition(position, id).value, ReadMask(mask).value), tail))
              else None
  {
    hide ReadInt, ReadWord, ReadMask, ReadPosition, Digits, IsWord;
    var t4 := mask + tail;
    WordReadBack(' ', mask, tail);
    var t3 := position + (" " + t4);
    WordReadBack(' ', position, " " + t4);
    var t2 := origin + (" " + t3);
    WordReadBack(' ', origin, " " + t3);
    var t1 := owner + (" " + t2);
    WordReadBack(' ', owner, " " + t2);
    IntReadBack('\n', id, " " + t1);
  }

  // ---------------------------------------------------------------- the round trip

  /** States whose board, masks, verdict and hash are what their text implies. */
  ghost predicate Writable(s: State)
  {
    && Agree(s) && Closed(s.origin, s.mask) && s.hash == ZobristHash(s) && s.turn <= TURN_LIMIT
    && s.winner == NO_WINNER && s.terminal == if s.turn >= TURN_LIMIT then Draw else Ongoing
  }

  lemma LineReadBack(s: State, p: int)
    requires Lengths(s) && 0 <= p < PIECE_COUNT && !s.mask[p].IsEmpty()
    ensures ReadLine(LinesText(s, p)) ==
              Some(Read(PieceLine(p, s.owner[p], s.origin[p], s.pos[p], s.mask[p]), LinesText(s, p + 1)))
  {
    hide ReadInt, ReadWord, ReadMask, ReadPosition, Digits, MaskText, PositionText, IsWord, LinesText;
    LinesUnfold(s, p);
    var tail := LinesText(s, p + 1);
    MaskReadBack(s.mask[p]);
    PositionReadBack(s.pos[p], p);
    SideReadBack(s.owner[p]);
    SideReadBack(s.origin[p]);
    var t4 := MaskText(s.mask[p]) + tail;
    WordReadBack(' ', MaskText(s.mask[p]), tail);
    var t3 := PositionText(s.pos[p]) + (" " + t4);
    WordReadBack(' ', PositionText(s.pos[p]), " " + t4);
    var t2 := SideCode(s.origin[p]) + (" " + t3);
    WordReadBack(' ', SideCode(s.origin[p]), " " + t3);
    var t1 := SideCode(s.owner[p]) + (" " + t2);
    WordReadBack(' ', SideCode(s.owner[p]), " " + t2);
    IntReadBack('\n', p, " " + t1);
    assert LinesText(s, p) == "\n" + (Digits(p) + (" " + t1)) by {
      RegroupLine(s, p, tail);
    }
  }

  lemma RegroupLine(s: State, p: int, tail: string)
    requires Lengths(s) && 0 <= p < PIECE_COUNT
    ensures PieceText(s, p) + tail ==
              Digits(p) + (" " + (SideCode(s.owner[p]) + (" " + (SideCode(s.origin[p]) + (" " +
                (PositionText(s.pos[p]) + (" " + (MaskText(s.mask[p]) + tail))))))))
  {
    hide Digits, MaskText, PositionText, SideCode;
  }

  lemma LinesUnfold(s: State, p: int)
    requires Lengths(s) && 0 <= p < PIECE_COUNT
    ensures LinesText(s, p) == "\n" + (PieceText(s, p) + LinesText(s, p + 1))
    ensures Stops(LinesText(s, p + 1))
  {
    hide PieceText;
  }

  lemma SideReadBack(side: Side)
    ensures IsWord(SideCode(side)) && ReadSide(SideCode(side)) == Some(side)
  {
    assert side.South? || side.North?;
  }

  lemma HeaderReadBack(s: State)
    requires Lengths(s) && s.turn <= TURN_LIMIT
    ensures ReadHeader(StateAsText(s)) == Some(Read(Header(s.sideToMove, s.turn), LinesText(s, 0)))
  {
    hide ReadInt, ReadWord, Digits, IsWord, LinesText;
    LinesUnfoldStart(s);
    SideReadBack(s.sideToMove);
    WordReadBack(' ', SideCode(s.sideToMove), " " + (Digits(s.turn) + LinesText(s, 0)));
    IntReadBack(' ', s.turn, LinesText(s, 0));
  }

  lemma LinesUnfoldStart(s: State)
    requires Lengths(s)
    ensures Stops(LinesText(s, 0))
  {
    hide PieceText;
  }

  /** The state after the first n lines of a written state. */
  ghost predicate ReadSoFar(s: State, r: State, seen: seq<bool>, n: int)
  {
    && Building(r) && Lengths(s) && |s.board| == BOARD_SIZE && |seen| == PIECE_COUNT && 0 <= n <= PIECE_COUNT
    && (forall p :: 0 <= p < PIECE_COUNT ==> (seen[p] <==> p < n))
    && (forall p :: 0 <= p < n ==>
          r.pos[p] == s.pos[p] && r.mask[p] == s.mask[p] && r.owner[p] == s.owner[p] && r.origin[p] == s.origin[p])
    && (forall square :: 0 <= square < BOARD_SIZE ==>
          r.board[square] == if s.board[square] < n then s.board[square] else EMPTY_SQUARE)
    && r.sideToMove == s.sideToMove && r.turn == s.turn && r.terminal == Ongoing && r.winner == NO_WINNER
  }

  lemma NextLineFits(s: State, r: State, seen: seq<bool>, n: int)
    requires Agree(s) && ReadSoFar(s, r, seen, n) && n < PIECE_COUNT
    ensures var line := PieceLine(n, s.owner[n], s.origin[n], s.pos[n], s.mask[n]);
            Fresh(r, seen, line) && ReadSoFar(s, WithLine(r, line), seen[n := true], n + 1)
  {
  }

  lemma {:induction false} PiecesReadBack(s: State, r: State, seen: seq<bool>, n: int) returns (raw: State)
    requires Agree(s) && ReadSoFar(s, r, seen, n) && forall p :: 0 <= p < PIECE_COUNT ==> !s.mask[p].IsEmpty()
    ensures Lengths(s) && ReadPieces(LinesText(s, n), PIECE_COUNT - n, r, seen) == Some(raw)
    ensures exists seen' :: ReadSoFar(s, raw, seen', PIECE_COUNT)
    decreases PIECE_COUNT - n
  {
    hide ReadLine, Fresh, WithLine, LinesText, ReadSoFar, Agree;
    ReadSoFarBasics(s, r, seen, n);
    if n == PIECE_COUNT {
      raw := r;
    } else {
      var line := PieceLine(n, s.owner[n], s.origin[n], s.pos[n], s.mask[n]);
      LineReadBack(s, n);
      NextLineFits(s, r, seen, n);
      raw := PiecesReadBack(s, WithLine(r, line), seen[n := true], n + 1);
    }
  }

  lemma ReadSoFarBasics(s: State, r: State, seen: seq<bool>, n: int)
    requires ReadSoFar(s, r, seen, n)
    ensures Building(r) && Lengths(s) && |seen| == PIECE_COUNT && 0 <= n <= PIECE_COUNT
  {
  }

  lemma NothingReadYet(s: State)
    requires Agree(s)
    ensures ReadSoFar(s, StartState(Header(s.sideToMove, s.turn)), seq(PIECE_COUNT, _ => false), 0)
  {
  }

  lemma AllLinesRead(s: State, raw: State, seen: seq<bool>)
    requires Agree(s) && ReadSoFar(s, raw, seen, PIECE_COUNT)
    ensures raw.board == s.board && raw.pos == s.pos && raw.mask == s.mask && raw.owner == s.owner
    ensures raw.origin == s.origin
    ensures raw.sideToMove == s.sideToMove && raw.turn == s.turn && raw.terminal == Ongoing && raw.winner == NO_WINNER
  {
  }

  lemma AcceptedIsWritable(raw: State, t: State)
    requires Building(raw) && Accepted(raw) == Some(t)
    requires raw.turn <= TURN_LIMIT && raw.terminal == Ongoing && raw.winner == NO_WINNER
    ensures Writable(t)
  {
    hide Satisfiable, Closure, Agree, Closed;
    ClosureIsClosed(raw.origin, raw.mask);
  }

  /** Everything the reader accepts is writable, whatever the text was. */
  lemma ParsedIsWritable(text: string, t: State)
    requires Parsed(text) == Some(t)
    ensures Writable(t)
  {
    hide ReadWord, ReadInt, ReadPieces, Accepted, Writable;
    var header := ReadHeader(text).value;
    var raw := ReadPieces(header.rest, PIECE_COUNT, StartState(header.value), seq(PIECE_COUNT, _ => false)).value;
    ReadingKeeps(header.rest, PIECE_COUNT, StartState(header.value), seq(PIECE_COUNT, _ => false), raw);
    AcceptedIsWritable(raw, t);
  }

  lemma {:induction false} ReadingKeeps(text: string, count: nat, s: State, seen: seq<bool>, raw: State)
    requires Building(s) && |seen| == PIECE_COUNT && ReadPieces(text, count, s, seen) == Some(raw)
    ensures raw.turn == s.turn && raw.terminal == s.terminal && raw.winner == s.winner && raw.sideToMove == s.sideToMove
    decreases count
  {
    hide ReadLine, Fresh;
    if count > 0 {
      var line := ReadLine(text).value;
      FreshLineFits(s, seen, line.value);
      ReadingKeeps(line.rest, count - 1, WithLine(s, line.value), seen[line.value.id := true], raw);
    }
  }

  /** Every ongoing position the reader accepts is one the search may start from. */
  lemma ParsedIsSearchable(text: string, t: State)
    requires Parsed(text) == Some(t)
    ensures Searchable(t)
  {
    hide Parsed, Agree, Satisfiable;
    ParsedIsWritable(text, t);
  }

  /** A state comes back from its text, in every field, exactly when it is writable. */
  lemma TextRoundTrip(s: State)
    requires Lengths(s)
    ensures Parsed(StateAsText(s)) == Some(s) <==> Writable(s)
  {
    hide Parsed, Writable, StateAsText;
    if Parsed(StateAsText(s)) == Some(s) {
      ParsedIsWritable(StateAsText(s), s);
    }
    if Writable(s) {
      WritableReadBack(s);
    }
  }

  lemma WritableReadBack(s: State)
    requires Writable(s)
    ensures Lengths(s) && Parsed(StateAsText(s)) == Some(s)
  {
    hide StateAsText, LinesText, ReadHeader, ReadPieces, ReadSoFar, StartState, Satisfiable, Closure;
    forall p | 0 <= p < PIECE_COUNT
      ensures !s.mask[p].IsEmpty()
    {
      if s.mask[p].IsEmpty() {
        EmptyMaskContradicts(s.origin, s.mask, p);
      }
    }
    ClosedIsFixedPoint(s.origin, s.mask);
    HeaderReadBack(s);
    NothingReadYet(s);
    var start, none := StartState(Header(s.sideToMove, s.turn)), seq(PIECE_COUNT, _ => false);
    var raw := PiecesReadBack(s, start, none, 0);
    var seen :| ReadSoFar(s, raw, seen, PIECE_COUNT);
    AllLinesRead(s, raw, seen);
  }

  /** The positions of every run that are still open, and turn-limit draws, come back unchanged. */
  lemma PlayableIsWritable(s: State)
    requires Playable(s)
    ensures Writable(s)
  {
    hide Closed, Agree;
  }

  // ---------------------------------------------------------------- the initial state in text

  lemma ShortDigits(n: nat)
    requires n < 10
    ensures Digits(n) == ["0123456789"[n]]
  {
  }

  /** The words of the initial state's text: South to move on turn 0, and where each of the eight pieces stands,
      which may be anything but a Hen. */
  lemma InitialInText(p: int)
    requires 0 <= p < 8
    ensures Lengths(Initial()) && SideCode(Initial().sideToMove) == "S" && Digits(Initial().turn) == "0"
    ensures SideCode(Initial().owner[p]) == SideCode(Initial().origin[p]) == if p < 4 then "S" else "N"
    ensures PositionText(Initial().pos[p]) == ["9", "10", "11", "7", "0", "1", "2", "4"][p]
    ensures MaskText(Initial().mask[p]) == "CGEL"
  {
    var square := Initial().pos[p];
    ShortDigits(if square < 10 then square else square % 10);
    ShortDigits(square / 10);
    ShortDigits(0);
    AllLetters();
    hide MaskText, SideCode;
    SideLetters();
  }

  lemma AllLetters()
    ensures MaskText(ALL_ANIMALS) == "CGEL"
  {
  }

  lemma SideLetters()
    ensures SideCode(South) == "S" && SideCode(North) == "N"
  {
  }
}
