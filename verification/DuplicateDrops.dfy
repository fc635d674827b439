/** What the duplicate-drop hint is about: two hand pieces of one owner can be told apart by what dropping them
    leads to exactly when they differ in origin or in forms.
 */
module DuplicateDrops {
  import opened Animals
  import opened FiniteSets
  import opened Propagation
  import opened States
  import opened Transition
  import opened Invariants
  import opened Symmetry
  import opened CanonicalKeys
  import opened Successors
  import MT = MoveTables

  /** Two hand pieces of the player to move, and an empty square to drop them on. */
  ghost predicate TwoDrops(s: State, l: int, r: int, to: int)
  {
    && Lawful(s) && s.terminal == Ongoing && 0 <= l < 8 && 0 <= r < 8 && l != r && 0 <= to < 12 && s.board[to] == -1
    && s.pos[l] >= 12 && s.pos[r] >= 12 && s.owner[l] == s.owner[r] == s.sideToMove
  }

  function Drop(s: State, p: int, to: int): Move
    requires 0 <= p < |s.pos|
  {
    Move(p, s.pos[p], to)
  }

  /** The renaming that exchanges two pieces. */
  function Exchange(l: int, r: int): Iso {
    var to := seq(8, p => if p == l then r else if p == r then l else p);
    Iso(to, to, false)
  }

  lemma ExchangeRelates(s: State, l: int, r: int, to: int)
    requires TwoDrops(s, l, r, to) && s.mask[l] == s.mask[r] && s.origin[l] == s.origin[r]
    ensures Related(Exchange(l, r), s, s) && Image(Exchange(l, r), s, Drop(s, l, to)) == Drop(s, r, to)
    ensures |s.board| == BOARD_SIZE && |s.pos| == |s.mask| == |s.owner| == PIECE_COUNT
  {
    hide Satisfiable;
    var i := Exchange(l, r);
    forall p | 0 <= p < PIECE_COUNT
      ensures PieceMatches(i, s, s, p)
    {
    }
  }

  /** Interchangeable pieces: one drop is accepted exactly when the other is, and both lead to one key. */
  lemma AlikeDrops(s: State, l: int, r: int, to: int)
    requires TwoDrops(s, l, r, to) && s.mask[l] == s.mask[r] && s.origin[l] == s.origin[r]
    ensures |s.pos| == 8 && LeadsTo(s, Drop(s, l, to)) == LeadsTo(s, Drop(s, r, to))
  {
    hide Apply, KeyOf, Related, Image;
    ExchangeRelates(s, l, r, to);
    ExchangeRelates(s, r, l, to);
    DropIsCarried(s, l, r, to);
    DropIsCarried(s, r, l, to);
  }

  lemma DropIsCarried(s: State, l: int, r: int, to: int)
    requires TwoDrops(s, l, r, to) && s.mask[l] == s.mask[r] && s.origin[l] == s.origin[r] && |s.pos| == 8
    ensures Apply(s, Drop(s, l, to)).Some? ==>
              Apply(s, Drop(s, r, to)).Some? && LeadsTo(s, Drop(s, l, to)) == LeadsTo(s, Drop(s, r, to))
  {
    hide Apply, KeyOf, Related, Image, Lawful;
    ExchangeRelates(s, l, r, to);
    var m, n := Drop(s, l, to), Drop(s, r, to);
    if Apply(s, m).Some? {
      StepMatches(Exchange(l, r), s, s, m);
      TwoDropsAgree(s, l, r, to);
      ApplyKeepsLawful(s, m, Apply(s, m).value);
      ApplyKeepsLawful(s, n, Apply(s, n).value);
      RelatedShareKey(Exchange(l, r), Apply(s, m).value, Apply(s, n).value);
    }
  }

  lemma TwoDropsAgree(s: State, l: int, r: int, to: int)
    requires TwoDrops(s, l, r, to)
    ensures Agree(s)
  {
    hide Satisfiable;
  }

  /** At the fixed point a drop changes no mask and is accepted, and the key shows what was dropped. */
  lemma DropShowsPiece(s: State, p: int, to: int) returns (t: State)
    requires Agree(s) && Closed(s.origin, s.mask) && s.terminal == Ongoing && 0 <= p < 8 && 0 <= to < 12
    requires s.board[to] == -1 && s.pos[p] >= 12 && s.owner[p] == s.sideToMove
    ensures Apply(s, Drop(s, p, to)) == Some(t) && Shaped(t)
    ensures BoardEntry(t, to) ==
              1 + 2 * SideIndex(s.origin[p]) + 4 * SideIndex(s.owner[p]) + 8 * MT.Code(s.mask[p])
  {
    ClosedIsFixedPoint(s.origin, s.mask);
    hide Closed, Satisfiable, Closure, LowestFreeSlot, HasSurvivingTry, HasHandLionCandidate;
    var m := Drop(s, p, to);
    var w := Placed(s, m);
    assert Moved(s, m) == Some(w) && w.mask == s.mask && w.origin == s.origin;
    assert Settled(s, m) == Some(w);
    hide Settled;
    FinishedFields(w, s.sideToMove);
    t := Apply(s, m).value;
  }

  /** At the fixed point the two drops on one square lead to one key exactly when the pieces are
      interchangeable. */
  lemma DropsShareKey(s: State, l: int, r: int, to: int)
    requires TwoDrops(s, l, r, to) && Closed(s.origin, s.mask)
    ensures |s.pos| == |s.mask| == |s.origin| == 8
    ensures LeadsTo(s, Drop(s, l, to)) == LeadsTo(s, Drop(s, r, to)) <==>
              s.mask[l] == s.mask[r] && s.origin[l] == s.origin[r]
  {
    TwoDropsAgree(s, l, r, to);
    if s.mask[l] == s.mask[r] && s.origin[l] == s.origin[r] {
      AlikeDrops(s, l, r, to);
    }
    hide Apply, Closed, Satisfiable;
    var t := DropShowsPiece(s, l, to);
    var u := DropShowsPiece(s, r, to);
    if KeyOf(t) == KeyOf(u) {
      assert KeyOf(t).board[to] == KeyOf(u).board[to];
      MT.CodeRoundTrip(s.mask[l], 0);
      MT.CodeRoundTrip(s.mask[r], 0);
    }
  }

  /** Eight pieces leave a square of twelve empty. */
  lemma SomeSquareIsEmpty(s: State) returns (to: int)
    requires Agree(s)
    ensures 0 <= to < 12 && s.board[to] == -1
  {
    hide Agree, Range;
    AgreeIsShaped(s);
    var occupied := set x | 0 <= x < 12 && s.board[x] != -1;
    OccupiedSquares(s, occupied);
    assert occupied != Range(0, 12);
    to :| 0 <= to < 12 && to !in occupied;
  }

  lemma OccupiedSquares(s: State, occupied: set<int>)
    requires Agree(s) && occupied == set x | 0 <= x < 12 && s.board[x] != -1
    ensures |occupied| <= 8
  {
    forall x, y | x in occupied && y in occupied && x != y
      ensures 0 <= s.board[x] < 8 && s.board[x] != s.board[y]
    {
      OccupantsDiffer(s, x, y);
    }
    forall x | x in occupied
      ensures 0 <= s.board[x] < 8
    {
    }
    hide Agree, Range;
    var image := set x | x in occupied :: s.board[x];
    ImageSize(s.board, occupied, image);
    SubsetSize(image, Range(0, 8));
  }

  lemma OccupantsDiffer(s: State, x: int, y: int)
    requires Agree(s) && 0 <= x < 12 && 0 <= y < 12 && x != y && s.board[x] != -1 && s.board[y] != -1
    ensures 0 <= s.board[x] < 8 && s.board[x] != s.board[y]
  {
  }

  /** At the fixed point the hint is given exactly when two different drops on one square lead to one key. */
  lemma HintMeansDuplicates(s: State)
    requires Lawful(s) && Closed(s.origin, s.mask) && s.terminal == Ongoing
    ensures Shaped(s)
    ensures HasDuplicateDrop(s) <==>
              exists l, r, to :: TwoDrops(s, l, r, to) && LeadsTo(s, Drop(s, l, to)) == LeadsTo(s, Drop(s, r, to))
  {
    hide Closed, Satisfiable, LeadsTo;
    var to := SomeSquareIsEmpty(s);
    if l, r :| 0 <= l < r < PIECE_COUNT && DuplicatePair(s, l, r) {
      assert TwoDrops(s, l, r, to);
      DropsShareKey(s, l, r, to);
    }
    if l, r, x :| TwoDrops(s, l, r, x) && LeadsTo(s, Drop(s, l, x)) == LeadsTo(s, Drop(s, r, x)) {
      DropsShareKey(s, l, r, x);
      assert if l < r then DuplicatePair(s, l, r) else DuplicatePair(s, r, l);
    }
  }
}
