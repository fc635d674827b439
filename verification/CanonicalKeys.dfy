/** The canonical successor key: board entries and, for each origin, the sorted piece tuples. It keeps
    exactly what a renaming of pieces and hand slots cannot change.
 */
module CanonicalKeys {
  import opened Animals
  import opened Propagation
  import opened Propagators
  import opened States
  import opened Invariants
  import opened Symmetry
  import opened Permuting
  import opened MoveGeneration
  import opened Transition
  import MT = MoveTables

  datatype CanonKey = CanonKey(board: seq<int>, pieces: seq<int>, sideToMove: Side, turn: nat,
                               terminal: Terminal, winner: int)

  function CanonicalPosition(position: int): int {
    if IsHandPosition(position) then FIRST_HAND_SLOT else position
  }

  /** Position in five bits, then the owner bit, then the mask. */
  function PieceTuple(s: State, p: int): int
    requires |s.pos| == |s.mask| == |s.owner| == PIECE_COUNT && 0 <= p < PIECE_COUNT
  {
    CanonicalPosition(s.pos[p]) + 32 * SideIndex(s.owner[p]) + 64 * MT.Code(s.mask[p])
  }

  /** Occupied bit, origin bit, owner bit, then the mask; an empty square is zero. */
  function BoardEntry(s: State, square: int): int
    requires |s.board| == BOARD_SIZE && 0 <= square < BOARD_SIZE && s.board[square] < PIECE_COUNT
    requires |s.mask| == |s.owner| == |s.origin| == PIECE_COUNT
  {
    var p := s.board[square];
    if p < 0 then 0 else 1 + 2 * SideIndex(s.origin[p]) + 4 * SideIndex(s.owner[p]) + 8 * MT.Code(s.mask[p])
  }

  /** The pieces of one origin below a bound, in ascending order. */
  function PiecesOf(origin: seq<Side>, side: Side, bound: nat): (r: seq<int>)
    requires bound <= |origin|
    ensures forall k :: 0 <= k < |r| ==> 0 <= r[k] < bound && origin[r[k]] == side
  {
    if bound == 0 then []
    else PiecesOf(origin, side, bound - 1) + if origin[bound - 1] == side then [bound - 1] else []
  }

  function Tuples(s: State, pieces: seq<int>): (r: seq<int>)
    requires |s.pos| == |s.mask| == |s.owner| == PIECE_COUNT
    requires forall k :: 0 <= k < |pieces| ==> 0 <= pieces[k] < PIECE_COUNT
    ensures |r| == |pieces|
  {
    seq(|pieces|, k requires 0 <= k < |pieces| => PieceTuple(s, pieces[k]))
  }

  /** All pieces of one origin, ascending, and their tuples. */
  function OriginPieces(s: State, side: Side): seq<int>
    requires Shaped(s)
  {
    PiecesOf(s.origin, side, PIECE_COUNT)
  }

  function OriginTuplesOf(s: State, side: Side): (r: seq<int>)
    requires Shaped(s)
    ensures |r| == |OriginPieces(s, side)|
  {
    Tuples(s, OriginPieces(s, side))
  }

  function KeyOf(s: State): CanonKey
    requires Shaped(s)
  {
    CanonKey(seq(BOARD_SIZE, square requires 0 <= square < BOARD_SIZE => BoardEntry(s, square)),
             SortUp(OriginTuplesOf(s, South)) + SortUp(OriginTuplesOf(s, North)),
             s.sideToMove, s.turn, s.terminal, s.winner)
  }

  /** Fills the key square by square and origin by origin, sorting each origin's tuples. */
  method CanonicalKey(s: State) returns (key: CanonKey)
    requires Shaped(s)
    ensures key == KeyOf(s)
  {
    var board := seq(BOARD_SIZE, _ => 0);
    for square := 0 to BOARD_SIZE
      invariant |board| == BOARD_SIZE
      invariant forall x :: 0 <= x < square ==> board[x] == BoardEntry(s, x)
      invariant forall x :: square <= x < BOARD_SIZE ==> board[x] == 0
    {
      var piece := s.board[square];
      if piece < 0 {
        continue;
      }
      var north := SideIndex(s.origin[piece]);
      var owner := SideIndex(s.owner[piece]);
      board := board[square := 1 + north * 2 + owner * 4 + MT.Code(s.mask[piece]) * 8];
    }
    var pieces := [];
    var south := OriginTuples(s, South);
    var northern := OriginTuples(s, North);
    pieces := SortUp(south) + SortUp(northern);
    key := CanonKey(board, pieces, s.sideToMove, s.turn, s.terminal, s.winner);
    assert board == KeyOf(s).board;
  }

  method OriginTuples(s: State, side: Side) returns (tuples: seq<int>)
    requires Shaped(s)
    ensures tuples == OriginTuplesOf(s, side)
  {
    tuples := [];
    for piece := 0 to PIECE_COUNT
      invariant tuples == Tuples(s, PiecesOf(s.origin, side, piece))
    {
      if s.origin[piece] == side {
        tuples := tuples + [PieceTuple(s, piece)];
      }
    }
  }

  // ---------------------------------------------------------------- the tuple loses nothing it should keep

  lemma TupleFields(s: State, t: State, p: int, q: int)
    requires Shaped(s) && Shaped(t) && 0 <= p < PIECE_COUNT && 0 <= q < PIECE_COUNT
    ensures PieceTuple(s, p) == PieceTuple(t, q) <==>
              && CanonicalPosition(s.pos[p]) == CanonicalPosition(t.pos[q])
              && s.owner[p] == t.owner[q] && s.mask[p] == t.mask[q]
  {
    MT.CodeRoundTrip(s.mask[p], 0);
    MT.CodeRoundTrip(t.mask[q], 0);
    hide MT.Code, MT.MaskOf;
    var a, b := CanonicalPosition(s.pos[p]), CanonicalPosition(t.pos[q]);
    assert 0 <= a < 32 && 0 <= b < 32;
    assert SideIndex(s.owner[p]) == SideIndex(t.owner[q]) <==> s.owner[p] == t.owner[q] by {
      assert s.owner[p].South? || s.owner[p].North?;
      assert t.owner[q].South? || t.owner[q].North?;
    }
  }

  lemma {:induction false} PiecesOfMember(origin: seq<Side>, side: Side, bound: nat, p: int)
    requires bound <= |origin|
    ensures p in PiecesOf(origin, side, bound) <==> 0 <= p < bound && origin[p] == side
  {
    if bound > 0 {
      PiecesOfMember(origin, side, bound - 1, p);
    }
  }

  lemma {:induction false} PiecesOfAscend(origin: seq<Side>, side: Side, bound: nat)
    requires bound <= |origin|
    ensures forall j, k :: 0 <= j < k < |PiecesOf(origin, side, bound)| ==>
              PiecesOf(origin, side, bound)[j] < PiecesOf(origin, side, bound)[k]
  {
    if bound > 0 {
      PiecesOfAscend(origin, side, bound - 1);
    }
  }

  lemma {:induction false} PiecesOfCount(origin: seq<Side>, side: Side, bound: nat)
    requires bound <= |origin| == PIECE_COUNT
    ensures |PiecesOf(origin, side, bound)| == |GroupBelow(origin, side, bound)|
  {
    hide GroupBelow, Group;
    if bound == 0 {
      GroupBelowStep(origin, side, 0);
    } else {
      GroupBelowStep(origin, side, bound - 1);
      PiecesOfCount(origin, side, bound - 1);
    }
  }

  lemma FourOfEach(s: State, side: Side)
    requires Lawful(s)
    ensures |OriginPieces(s, side)| == PIECES_PER_ORIGIN
  {
    SatisfiableGroupsOfFour(s.origin, s.mask);
    PiecesOfCount(s.origin, side, PIECE_COUNT);
    GroupBelowStep(s.origin, side, 0);
    hide GroupBelow, Group;
  }

  function IndexIn(list: seq<int>, x: int): (k: int)
    ensures x in list ==> 0 <= k < |list| && list[k] == x
  {
    if list == [] then -1
    else if list[|list| - 1] == x then |list| - 1
    else IndexIn(list[..|list| - 1], x)
  }

  // ---------------------------------------------------------------- related positions share a key

  lemma RenamedList(i: Iso, s: State, t: State, side: Side, k: int)
    requires PiecesMatch(i, s, t) && !i.flip
    requires 0 <= k < |OriginPieces(s, side)|
    ensures var p := OriginPieces(s, side)[k];
            i.to[p] in OriginPieces(t, side) && PieceTuple(s, p) == PieceTuple(t, i.to[p])
  {
    var p := OriginPieces(s, side)[k];
    assert PieceMatches(i, s, t, p);
    PiecesOfMember(t.origin, side, PIECE_COUNT, i.to[p]);
    TupleFields(s, t, p, i.to[p]);
  }

  /** The renaming seen as a map between the two ascending lists. */
  ghost function ListMap(to: seq<int>, ps: seq<int>, qs: seq<int>): (r: seq<int>)
    requires |to| == PIECE_COUNT && forall k :: 0 <= k < |ps| ==> 0 <= ps[k] < PIECE_COUNT
    ensures |r| == |ps|
  {
    seq(|ps|, k requires 0 <= k < |ps| => IndexIn(qs, to[ps[k]]))
  }

  lemma AscendingIndex(list: seq<int>, k: int)
    requires 0 <= k < |list| && forall i, j :: 0 <= i < j < |list| ==> list[i] < list[j]
    ensures IndexIn(list, list[k]) == k
  {
    assert list[k] in list;
  }

  /** Where a listed piece goes in the other list, and that the way back returns. */
  lemma RenamedIndex(i: Iso, s: State, t: State, side: Side, k: int)
    requires PiecesMatch(i, s, t) && !i.flip && 0 <= k < |OriginPieces(s, side)|
    ensures var ps, qs := OriginPieces(s, side), OriginPieces(t, side);
            var to, back := ListMap(i.to, ps, qs), ListMap(i.back, qs, ps);
            0 <= to[k] < |qs| && back[to[k]] == k && PieceTuple(t, qs[to[k]]) == PieceTuple(s, ps[k])
  {
    hide PieceMatches, PieceTuple, PiecesOf;
    var ps, qs := OriginPieces(s, side), OriginPieces(t, side);
    PiecesOfAscend(s.origin, side, PIECE_COUNT);
    RenamedList(i, s, t, side, k);
    AscendingIndex(ps, k);
  }

  lemma RelatedTuples(i: Iso, s: State, t: State, side: Side)
    requires Related(i, s, t) && !i.flip && Lawful(s) && Lawful(t)
    ensures multiset(OriginTuplesOf(s, side)) == multiset(OriginTuplesOf(t, side))
  {
    hide PieceMatches, Agree, Satisfiable, PieceTuple, PiecesOf, ListMap, IndexIn;
    FourOfEach(s, side);
    FourOfEach(t, side);
    InverseMatches(i, s, t);
    var ps, qs := OriginPieces(s, side), OriginPieces(t, side);
    var to, back := ListMap(i.to, ps, qs), ListMap(i.back, qs, ps);
    forall k | 0 <= k < PIECES_PER_ORIGIN
      ensures 0 <= to[k] < PIECES_PER_ORIGIN && back[to[k]] == k && Tuples(t, qs)[to[k]] == Tuples(s, ps)[k]
    {
      RenamedIndex(i, s, t, side, k);
    }
    forall k | 0 <= k < PIECES_PER_ORIGIN
      ensures 0 <= back[k] < PIECES_PER_ORIGIN && to[back[k]] == k
    {
      RenamedIndex(i.Inverse(), t, s, side, k);
    }
    RearrangedMultisets(Tuples(s, ps), Tuples(t, qs), to, back);
  }

  lemma RelatedBoards(i: Iso, s: State, t: State, x: int)
    requires Related(i, s, t) && !i.flip && 0 <= x < BOARD_SIZE
    ensures BoardEntry(s, x) == BoardEntry(t, x)
  {
    MatchingBoards(i, s, t, x);
    if s.board[x] >= 0 {
      assert PieceMatches(i, s, t, s.board[x]);
    }
    hide Agree;
  }

  lemma RelatedBoardPart(i: Iso, s: State, t: State)
    requires Related(i, s, t) && !i.flip
    ensures KeyOf(s).board == KeyOf(t).board
  {
    hide PiecesOf, Tuples, SortUp, BoardEntry, PiecesMatch;
    forall x | 0 <= x < BOARD_SIZE
      ensures BoardEntry(s, x) == BoardEntry(t, x)
    {
      RelatedBoards(i, s, t, x);
    }
  }

  lemma RelatedPiecePart(i: Iso, s: State, t: State)
    requires Related(i, s, t) && !i.flip && Lawful(s) && Lawful(t)
    ensures KeyOf(s).pieces == KeyOf(t).pieces
  {
    RelatedTuples(i, s, t, South);
    RelatedTuples(i, s, t, North);
    hide BoardEntry, Tuples, PiecesOf, SortUp, PiecesMatch, Satisfiable, Agree;
    assert Shaped(s) && Shaped(t);
    SortUpCanonical(OriginTuplesOf(s, South), OriginTuplesOf(t, South));
    SortUpCanonical(OriginTuplesOf(s, North), OriginTuplesOf(t, North));
  }

  /** Renaming pieces and hand slots does not change the key. */
  lemma RelatedShareKey(i: Iso, s: State, t: State)
    requires Related(i, s, t) && !i.flip && Lawful(s) && Lawful(t)
    ensures KeyOf(s) == KeyOf(t)
  {
    RelatedBoardPart(i, s, t);
    RelatedPiecePart(i, s, t);
    hide BoardEntry, Tuples, PiecesOf, SortUp, PiecesMatch, Lawful, Agree;
  }

  // ---------------------------------------------------------------- a shared key gives a renaming

  /** f sends the pieces of one origin to pieces of the same origin with the same tuple, and g undoes it. */
  ghost predicate Half(s: State, t: State, side: Side, f: map<int, int>, g: map<int, int>)
  {
    && Shaped(s) && Shaped(t)
    && (forall p :: p in f ==> 0 <= p < PIECE_COUNT && s.origin[p] == side)
    && forall p :: 0 <= p < PIECE_COUNT && s.origin[p] == side ==> Sent(s, t, f, g, p)
  }

  ghost predicate Sent(s: State, t: State, f: map<int, int>, g: map<int, int>, p: int)
    requires Shaped(s) && Shaped(t) && 0 <= p < PIECE_COUNT
  {
    && p in f && 0 <= f[p] < PIECE_COUNT && t.origin[f[p]] == s.origin[p] && PieceTuple(s, p) == PieceTuple(t, f[p])
    && f[p] in g && g[f[p]] == p
  }

  ghost function ListToMap(ps: seq<int>, qs: seq<int>, to: seq<int>): map<int, int>
    requires |to| == |ps| && forall k :: 0 <= k < |to| ==> 0 <= to[k] < |qs|
  {
    map p | p in ps :: qs[to[IndexIn(ps, p)]]
  }

  lemma ListedIsSent(s: State, t: State, side: Side, to: seq<int>, back: seq<int>, p: int)
    requires Shaped(s) && Shaped(t) && 0 <= p < PIECE_COUNT && s.origin[p] == side
    requires Rearranges(OriginTuplesOf(s, side), OriginTuplesOf(t, side), to, back)
    ensures Sent(s, t, ListToMap(OriginPieces(s, side), OriginPieces(t, side), to),
                 ListToMap(OriginPieces(t, side), OriginPieces(s, side), back), p)
  {
    PiecesOfMember(s.origin, side, PIECE_COUNT, p);
    PiecesOfAscend(t.origin, side, PIECE_COUNT);
    hide PieceTuple, PiecesOf;
    var ps, qs := OriginPieces(s, side), OriginPieces(t, side);
    var k := IndexIn(ps, p);
    assert Tuples(t, qs)[to[k]] == Tuples(s, ps)[k];
    AscendingIndex(qs, to[k]);
  }

  lemma ListsToHalf(s: State, t: State, side: Side, to: seq<int>, back: seq<int>)
    requires Shaped(s) && Shaped(t)
    requires Rearranges(OriginTuplesOf(s, side), OriginTuplesOf(t, side), to, back)
    ensures Half(s, t, side, ListToMap(OriginPieces(s, side), OriginPieces(t, side), to),
                 ListToMap(OriginPieces(t, side), OriginPieces(s, side), back))
  {
    hide PieceTuple, Sent, PiecesOf, Tuples;
    forall p | 0 <= p < PIECE_COUNT && s.origin[p] == side {
      ListedIsSent(s, t, side, to, back, p);
    }
  }

  lemma MatchOrigin(s: State, t: State, side: Side) returns (f: map<int, int>, g: map<int, int>)
    requires Lawful(s) && Lawful(t)
    requires multiset(OriginTuplesOf(s, side)) == multiset(OriginTuplesOf(t, side))
    ensures Half(s, t, side, f, g) && Half(t, s, side, g, f)
  {
    hide PieceTuple, Lawful, Half, ListToMap, PiecesOf, Tuples;
    LawfulIsShaped(s);
    LawfulIsShaped(t);
    var ps, qs := OriginPieces(s, side), OriginPieces(t, side);
    var to, back := MultisetsRearranged(Tuples(s, ps), Tuples(t, qs));
    f, g := ListToMap(ps, qs, to), ListToMap(qs, ps, back);
    ListsToHalf(s, t, side, to, back);
    ListsToHalf(t, s, side, back, to);
  }

  lemma SharedTuples(s: State, t: State)
    requires Lawful(s) && Lawful(t) && KeyOf(s) == KeyOf(t)
    ensures forall side :: multiset(OriginTuplesOf(s, side)) == multiset(OriginTuplesOf(t, side))
  {
    hide PieceTuple, Agree, Satisfiable, BoardEntry;
    LawfulIsShaped(s);
    LawfulIsShaped(t);
    var a, b := OriginTuplesOf(s, South), OriginTuplesOf(s, North);
    var c, d := OriginTuplesOf(t, South), OriginTuplesOf(t, North);
    FourOfEach(s, South);
    FourOfEach(t, South);
    SortUpSorts(a);
    SortUpSorts(c);
    assert SortUp(a) == KeyOf(s).pieces[..4] && SortUp(c) == KeyOf(t).pieces[..4];
    assert SortUp(b) == KeyOf(s).pieces[4..] && SortUp(d) == KeyOf(t).pieces[4..];
    SortUpCanonical(a, c);
    SortUpCanonical(b, d);
    forall side
      ensures multiset(OriginTuplesOf(s, side)) == multiset(OriginTuplesOf(t, side))
    {
      assert side.South? || side.North?;
    }
  }

  lemma SentThroughUnion(s: State, t: State, side: Side, f: map<int, int>, g: map<int, int>,
                         f': map<int, int>, g': map<int, int>, p: int)
    requires Half(s, t, side, f, g) && Half(s, t, side.Opposite(), f', g')
    requires Half(t, s, side, g, f) && Half(t, s, side.Opposite(), g', f')
    requires 0 <= p < PIECE_COUNT && s.origin[p] == side
    ensures Sent(s, t, f + f', g + g', p) && Sent(s, t, f' + f, g' + g, p)
  {
    assert Sent(s, t, f, g, p);
    hide PieceTuple;
    assert p !in f' && f[p] !in g';
  }

  lemma UnionToIso(s: State, t: State, f: map<int, int>, g: map<int, int>) returns (i: Iso)
    requires Shaped(s) && Shaped(t)
    requires forall p :: 0 <= p < PIECE_COUNT ==> Sent(s, t, f, g, p) && Sent(t, s, g, f, p)
    ensures PiecesMatch(i, s, t) && !i.flip
  {
    forall p | 0 <= p < PIECE_COUNT
      ensures p in f && p in g
    {
      assert Sent(s, t, f, g, p) && Sent(t, s, g, f, p);
    }
    i := Iso(seq(PIECE_COUNT, p requires 0 <= p < PIECE_COUNT => f[p]),
             seq(PIECE_COUNT, p requires 0 <= p < PIECE_COUNT => g[p]), false);
    forall p | 0 <= p < PIECE_COUNT
      ensures i.to[p] == f[p] && i.back[p] == g[p] && Sent(s, t, f, g, p) && Sent(t, s, g, f, p)
    {
    }
    TuplesMatchPieces(i, s, t);
  }

  /** A shared key gives a renaming: the tuples of each origin pair off. */
  lemma SharedKeyRelates(s: State, t: State) returns (i: Iso)
    requires Lawful(s) && Lawful(t) && KeyOf(s) == KeyOf(t)
    ensures Related(i, s, t) && !i.flip
  {
    SharedTuples(s, t);
    var f, g := MatchOrigin(s, t, South);
    var f', g' := MatchOrigin(s, t, North);
    hide Satisfiable, PieceTuple, Sent, Half;
    forall p | 0 <= p < PIECE_COUNT
      ensures Sent(s, t, f + f', g + g', p) && Sent(t, s, g + g', f + f', p)
    {
      if s.origin[p].South? {
        SentThroughUnion(s, t, South, f, g, f', g', p);
      } else {
        SentThroughUnion(s, t, North, f', g', f, g, p);
      }
      if t.origin[p].South? {
        SentThroughUnion(t, s, South, g, f, g', f', p);
      } else {
        SentThroughUnion(t, s, North, g', f', g, f, p);
      }
    }
    i := UnionToIso(s, t, f + f', g + g');
  }

  lemma TuplesMatchPieces(i: Iso, s: State, t: State)
    requires Shaped(s) && Shaped(t) && i.Valid() && !i.flip
    requires forall p :: 0 <= p < PIECE_COUNT ==>
               t.origin[i.to[p]] == s.origin[p] && PieceTuple(s, p) == PieceTuple(t, i.to[p])
    ensures PiecesMatch(i, s, t)
  {
    forall p | 0 <= p < PIECE_COUNT
      ensures PieceMatches(i, s, t, p)
    {
      TupleFields(s, t, p, i.to[p]);
    }
  }

  /** Two lawful positions have one key exactly when renaming pieces within their origins and renaming
      hand slots turns one into the other. */
  lemma KeyCharacterization(s: State, t: State)
    requires Lawful(s) && Lawful(t)
    ensures KeyOf(s) == KeyOf(t) <==> exists i: Iso :: !i.flip && Related(i, s, t)
  {
    if KeyOf(s) == KeyOf(t) {
      var i := SharedKeyRelates(s, t);
    }
    if exists i: Iso :: !i.flip && Related(i, s, t) {
      var i: Iso :| !i.flip && Related(i, s, t);
      RelatedShareKey(i, s, t);
    }
  }

  /** Equal keys lead by corresponding moves to equal keys. */
  lemma EqualKeysStepAlike(s: State, t: State, m: Move, s': State) returns (n: Move, t': State)
    requires Lawful(s) && Lawful(t) && KeyOf(s) == KeyOf(t) && Apply(s, m) == Some(s')
    ensures Apply(t, n) == Some(t') && Lawful(s') && Lawful(t') && KeyOf(s') == KeyOf(t')
    ensures n.to == m.to && (IsBoardSquare(m.from) ==> n.from == m.from)
  {
    hide Apply, KeyOf, Satisfiable, Agree;
    var i := SharedKeyRelates(s, t);
    StepMatches(i, s, t, m);
    n := Image(i, t, m);
    t' := Apply(t, n).value;
    ApplyKeepsLawful(s, m, s');
    ApplyKeepsLawful(t, n, t');
    RelatedShareKey(i, s', t');
    SourceOfMove(i, s, t, m);
  }

  lemma SourceOfMove(i: Iso, s: State, t: State, m: Move)
    requires Related(i, s, t) && IsPseudoLegal(s, m) && !i.flip
    ensures Image(i, t, m).to == m.to && (IsBoardSquare(m.from) ==> Image(i, t, m).from == m.from)
  {
    assert PieceMatches(i, s, t, m.piece);
  }
}
