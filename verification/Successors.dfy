/** Grouping legal moves by the canonical key of where they lead, and keeping one move of each group.
 */
module Successors {
  import opened Animals
  import opened FiniteSets
  import opened States
  import opened Transition
  import opened Propagators
  import opened Rules
  import opened CanonicalKeys

  datatype SuccessorClass = SuccessorClass(key: CanonKey, representative: Move, multiplicity: nat)

  /** The canonical key a move leads to. */
  ghost function LeadsTo(s: State, m: Move): Option<CanonKey> {
    var t :- Apply(s, m);
    Some(KeyOf(t))
  }

  /** How many of the moves lead to a key. */
  ghost function CountLeading(s: State, moves: seq<Move>, key: CanonKey): nat {
    if moves == [] then 0
    else CountLeading(s, moves[..|moves| - 1], key) + if LeadsTo(s, moves[|moves| - 1]) == Some(key) then 1 else 0
  }

  ghost function CountAccepted(s: State, moves: seq<Move>): nat {
    if moves == [] then 0
    else CountAccepted(s, moves[..|moves| - 1]) + if Apply(s, moves[|moves| - 1]).Some? then 1 else 0
  }

  ghost function TotalMultiplicity(classes: seq<SuccessorClass>): nat {
    if classes == [] then 0
    else TotalMultiplicity(classes[..|classes| - 1]) + classes[|classes| - 1].multiplicity
  }

  function RepresentativeScore(s: State, m: Move, preferred: Move): int
    requires Shaped(s) && m.Valid()
  {
    if m == preferred then 2_000_000
    else
      var captured := s.board[m.to];
      (if captured >= 0 then 200_000 + if s.mask[captured] == LION_ONLY then 1_000_000 else 0 else 0)
      - (m.from * BOARD_SIZE + m.to)
  }

  /** Where a key is first led to, or past the end. */
  ghost function FirstLeading(s: State, moves: seq<Move>, key: CanonKey): (r: nat)
    ensures r <= |moves|
  {
    if moves == [] then 0
    else
      var n := |moves| - 1;
      var first := FirstLeading(s, moves[..n], key);
      if first < n then first else if LeadsTo(s, moves[n]) == Some(key) then n else n + 1
  }

  /** The move at an index leads to the key and scores more than all before it that do. */
  ghost predicate BeatsEarlier(s: State, moves: seq<Move>, preferred: Move, key: CanonKey, k: int)
    requires Shaped(s) && forall m :: m in moves ==> m.Valid()
  {
    && 0 <= k < |moves| && LeadsTo(s, moves[k]) == Some(key)
    && forall j :: 0 <= j < k && LeadsTo(s, moves[j]) == Some(key) ==>
         RepresentativeScore(s, moves[j], preferred) < RepresentativeScore(s, moves[k], preferred)
  }

  /** One class is right about the moves seen so far: its size is exact, and its representative is the
      first of its best-scored members. */
  ghost predicate ClassRight(s: State, moves: seq<Move>, preferred: Move, c: SuccessorClass)
    requires Shaped(s) && forall m :: m in moves ==> m.Valid()
  {
    && (exists k :: BeatsEarlier(s, moves, preferred, c.key, k) && moves[k] == c.representative)
    && c.multiplicity == CountLeading(s, moves, c.key)
    && forall m :: m in moves && LeadsTo(s, m) == Some(c.key) ==>
         RepresentativeScore(s, m, preferred) <= RepresentativeScore(s, c.representative, preferred)
  }

  ghost predicate HasClass(classes: seq<SuccessorClass>, key: CanonKey)
  {
    exists i :: 0 <= i < |classes| && classes[i].key == key
  }

  /** Distinct keys in the order they are first led to, right classes, a class for every accepted move, and
      every move counted once. */
  ghost predicate Partition(s: State, moves: seq<Move>, preferred: Move, classes: seq<SuccessorClass>)
    requires Shaped(s) && forall m :: m in moves ==> m.Valid()
  {
    && (forall i, j :: 0 <= i < j < |classes| ==> classes[i].key != classes[j].key)
    && (forall i, j :: 0 <= i < j < |classes| ==>
          FirstLeading(s, moves, classes[i].key) < FirstLeading(s, moves, classes[j].key))
    && (forall i :: 0 <= i < |classes| ==> ClassRight(s, moves, preferred, classes[i]))
    && (forall m :: m in moves && LeadsTo(s, m).Some? ==> HasClass(classes, LeadsTo(s, m).value))
    && TotalMultiplicity(classes) == CountAccepted(s, moves)
  }

  lemma {:induction false} TotalAfterUpdate(classes: seq<SuccessorClass>, i: int, c: SuccessorClass)
    requires 0 <= i < |classes|
    ensures TotalMultiplicity(classes[i := c]) == TotalMultiplicity(classes) - classes[i].multiplicity + c.multiplicity
  {
    var n := |classes| - 1;
    if i < n {
      TotalAfterUpdate(classes[..n], i, c);
      assert classes[i := c][..n] == classes[..n][i := c];
    } else {
      assert classes[i := c][..n] == classes[..n];
    }
  }

  lemma {:induction false} NoneLeading(s: State, moves: seq<Move>, key: CanonKey)
    requires forall m :: m in moves ==> LeadsTo(s, m) != Some(key)
    ensures CountLeading(s, moves, key) == 0
  {
    if moves != [] {
      NoneLeading(s, moves[..|moves| - 1], key);
      assert moves[|moves| - 1] in moves;
    }
  }

  /** A key that is led to keeps its first place when a move is appended; a new one gets the last. */
  lemma FirstAfter(s: State, moves: seq<Move>, m: Move, key: CanonKey)
    ensures FirstLeading(s, moves, key) < |moves| ==> FirstLeading(s, moves + [m], key) == FirstLeading(s, moves, key)
    ensures FirstLeading(s, moves, key) == |moves| && LeadsTo(s, m) == Some(key) ==>
              FirstLeading(s, moves + [m], key) == |moves|
  {
    hide LeadsTo;
    assert (moves + [m])[..|moves|] == moves;
  }

  lemma {:induction false} FirstIsBefore(s: State, moves: seq<Move>, key: CanonKey, k: int)
    requires 0 <= k < |moves| && LeadsTo(s, moves[k]) == Some(key)
    ensures FirstLeading(s, moves, key) <= k
  {
    hide LeadsTo;
    if k < |moves| - 1 {
      FirstIsBefore(s, moves[..|moves| - 1], key, k);
    }
  }

  lemma {:induction false} FirstIsNone(s: State, moves: seq<Move>, key: CanonKey)
    requires forall m :: m in moves ==> LeadsTo(s, m) != Some(key)
    ensures FirstLeading(s, moves, key) == |moves|
  {
    hide LeadsTo;
    if moves != [] {
      FirstIsNone(s, moves[..|moves| - 1], key);
      assert moves[|moves| - 1] in moves;
    }
  }

  /** The key of a right class has been led to. */
  lemma ClassIsLedTo(s: State, moves: seq<Move>, preferred: Move, c: SuccessorClass)
    requires Shaped(s) && (forall x :: x in moves ==> x.Valid()) && ClassRight(s, moves, preferred, c)
    ensures FirstLeading(s, moves, c.key) < |moves| && c.representative in moves
    ensures LeadsTo(s, c.representative) == Some(c.key) && c.representative.Valid()
  {
    hide LeadsTo, RepresentativeScore;
    var k :| BeatsEarlier(s, moves, preferred, c.key, k) && moves[k] == c.representative;
    FirstIsBefore(s, moves, c.key, k);
  }

  lemma RepresentativeIndex(s: State, moves: seq<Move>, preferred: Move, c: SuccessorClass) returns (k: int)
    requires Shaped(s) && (forall x :: x in moves ==> x.Valid()) && ClassRight(s, moves, preferred, c)
    ensures 0 <= k < |moves| && BeatsEarlier(s, moves, preferred, c.key, k) && moves[k] == c.representative
  {
    hide LeadsTo, RepresentativeScore;
    k :| BeatsEarlier(s, moves, preferred, c.key, k) && moves[k] == c.representative;
  }

  lemma StillBeats(s: State, moves: seq<Move>, preferred: Move, key: CanonKey, k: int, m: Move)
    requires Shaped(s) && m.Valid() && (forall x :: x in moves ==> x.Valid())
    requires BeatsEarlier(s, moves, preferred, key, k)
    ensures (forall x :: x in moves + [m] ==> x.Valid()) && BeatsEarlier(s, moves + [m], preferred, key, k)
    ensures (moves + [m])[k] == moves[k]
  {
    hide LeadsTo, RepresentativeScore;
  }

  /** Appending a move to a class's evidence. */
  lemma ClassStillRight(s: State, moves: seq<Move>, preferred: Move, c: SuccessorClass, m: Move)
    requires Shaped(s) && m.Valid() && forall x :: x in moves ==> x.Valid()
    requires ClassRight(s, moves, preferred, c) && LeadsTo(s, m) != Some(c.key)
    ensures ClassRight(s, moves + [m], preferred, c)
  {
    hide LeadsTo, RepresentativeScore, BeatsEarlier;
    assert (moves + [m])[..|moves|] == moves;
    var k := RepresentativeIndex(s, moves, preferred, c);
    StillBeats(s, moves, preferred, c.key, k, m);
  }

  lemma ClassGrows(s: State, moves: seq<Move>, preferred: Move, c: SuccessorClass, m: Move, c': SuccessorClass)
    requires Shaped(s) && m.Valid() && c.representative.Valid() && forall x :: x in moves ==> x.Valid()
    requires ClassRight(s, moves, preferred, c) && LeadsTo(s, m) == Some(c.key)
    requires Joins(s, m, preferred, c, c')
    ensures ClassRight(s, moves + [m], preferred, c')
  {
    hide LeadsTo, RepresentativeScore, BeatsEarlier;
    assert (moves + [m])[..|moves|] == moves;
    var k := RepresentativeIndex(s, moves, preferred, c);
    StillBeats(s, moves, preferred, c.key, k, m);
    if c'.representative != c.representative {
      BestIsLast(s, moves, preferred, c, m);
      assert (moves + [m])[|moves|] == m;
    }
  }

  lemma BestIsLast(s: State, moves: seq<Move>, preferred: Move, c: SuccessorClass, m: Move)
    requires Shaped(s) && m.Valid() && c.representative.Valid() && forall x :: x in moves ==> x.Valid()
    requires LeadsTo(s, m) == Some(c.key)
    requires forall x :: x in moves && LeadsTo(s, x) == Some(c.key) ==>
               RepresentativeScore(s, x, preferred) <= RepresentativeScore(s, c.representative, preferred)
    requires RepresentativeScore(s, m, preferred) > RepresentativeScore(s, c.representative, preferred)
    ensures (forall x :: x in moves + [m] ==> x.Valid()) && BeatsEarlier(s, moves + [m], preferred, c.key, |moves|)
  {
    hide LeadsTo, RepresentativeScore;
    forall j | 0 <= j < |moves| && LeadsTo(s, (moves + [m])[j]) == Some(c.key)
      ensures RepresentativeScore(s, (moves + [m])[j], preferred) < RepresentativeScore(s, m, preferred)
    {
      assert (moves + [m])[j] == moves[j] && moves[j] in moves;
    }
  }

  lemma NewClassRight(s: State, moves: seq<Move>, preferred: Move, m: Move, key: CanonKey)
    requires Shaped(s) && m.Valid() && forall x :: x in moves ==> x.Valid()
    requires LeadsTo(s, m) == Some(key) && forall x :: x in moves ==> LeadsTo(s, x) != Some(key)
    ensures ClassRight(s, moves + [m], preferred, SuccessorClass(key, m, 1))
  {
    hide LeadsTo, RepresentativeScore;
    NoneLeading(s, moves, key);
    assert (moves + [m])[..|moves|] == moves;
    forall j | 0 <= j < |moves|
      ensures LeadsTo(s, (moves + [m])[j]) != Some(key)
    {
      assert (moves + [m])[j] == moves[j] && moves[j] in moves;
    }
    assert BeatsEarlier(s, moves + [m], preferred, key, |moves|) && (moves + [m])[|moves|] == m;
  }

  /** First places after a move is appended, for the classes there are. */
  lemma OrderKept(s: State, moves: seq<Move>, preferred: Move, classes: seq<SuccessorClass>, m: Move, i: int, j: int)
    requires Shaped(s) && m.Valid() && (forall x :: x in moves ==> x.Valid()) && Partition(s, moves, preferred, classes)
    requires 0 <= i < j < |classes|
    ensures FirstLeading(s, moves + [m], classes[i].key) < FirstLeading(s, moves + [m], classes[j].key)
  {
    hide LeadsTo, ClassRight, HasClass;
    ClassIsLedTo(s, moves, preferred, classes[i]);
    ClassIsLedTo(s, moves, preferred, classes[j]);
    FirstAfter(s, moves, m, classes[i].key);
    FirstAfter(s, moves, m, classes[j].key);
  }

  lemma PartitionSkips(s: State, moves: seq<Move>, preferred: Move, classes: seq<SuccessorClass>, m: Move)
    requires Shaped(s) && m.Valid() && forall x :: x in moves ==> x.Valid()
    requires Partition(s, moves, preferred, classes) && Apply(s, m).None?
    ensures Partition(s, moves + [m], preferred, classes)
  {
    hide Apply, ClassRight, HasClass, RepresentativeScore, KeyOf, FirstLeading;
    assert (moves + [m])[..|moves|] == moves;
    forall i | 0 <= i < |classes|
      ensures ClassRight(s, moves + [m], preferred, classes[i])
    {
      ClassStillRight(s, moves, preferred, classes[i], m);
    }
    forall i, j | 0 <= i < j < |classes|
      ensures FirstLeading(s, moves + [m], classes[i].key) < FirstLeading(s, moves + [m], classes[j].key)
    {
      OrderKept(s, moves, preferred, classes, m, i, j);
    }
  }

  lemma NewKeyIsLast(s: State, moves: seq<Move>, preferred: Move, classes: seq<SuccessorClass>, m: Move,
                     key: CanonKey, i: int)
    requires Shaped(s) && m.Valid() && (forall x :: x in moves ==> x.Valid()) && Partition(s, moves, preferred, classes)
    requires LeadsTo(s, m) == Some(key) && !HasClass(classes, key) && 0 <= i < |classes|
    ensures FirstLeading(s, moves + [m], classes[i].key) < FirstLeading(s, moves + [m], key)
  {
    hide LeadsTo, ClassRight;
    ClassIsLedTo(s, moves, preferred, classes[i]);
    FirstAfter(s, moves, m, classes[i].key);
    FirstIsNone(s, moves, key);
    FirstAfter(s, moves, m, key);
  }

  lemma PartitionAdds(s: State, moves: seq<Move>, preferred: Move, classes: seq<SuccessorClass>, m: Move, key: CanonKey)
    requires Shaped(s) && m.Valid() && forall x :: x in moves ==> x.Valid()
    requires Partition(s, moves, preferred, classes) && Apply(s, m).Some? && LeadsTo(s, m) == Some(key)
    requires !HasClass(classes, key)
    ensures Partition(s, moves + [m], preferred, classes + [SuccessorClass(key, m, 1)])
  {
    hide Apply, LeadsTo, ClassRight, FirstLeading;
    assert (moves + [m])[..|moves|] == moves;
    NewClassRight(s, moves, preferred, m, key);
    var classes' := classes + [SuccessorClass(key, m, 1)];
    assert classes'[..|classes|] == classes;
    forall i | 0 <= i < |classes|
      ensures ClassRight(s, moves + [m], preferred, classes'[i])
      ensures FirstLeading(s, moves + [m], classes'[i].key) < FirstLeading(s, moves + [m], key)
    {
      ClassStillRight(s, moves, preferred, classes[i], m);
      NewKeyIsLast(s, moves, preferred, classes, m, key, i);
    }
    forall i, j | 0 <= i < j < |classes|
      ensures FirstLeading(s, moves + [m], classes'[i].key) < FirstLeading(s, moves + [m], classes'[j].key)
    {
      OrderKept(s, moves, preferred, classes, m, i, j);
    }
    NewClassCovers(s, moves, classes, m, key);
  }

  lemma NewClassCovers(s: State, moves: seq<Move>, classes: seq<SuccessorClass>, m: Move, key: CanonKey)
    requires LeadsTo(s, m) == Some(key)
    requires forall x :: x in moves && LeadsTo(s, x).Some? ==> HasClass(classes, LeadsTo(s, x).value)
    ensures forall x :: x in moves + [m] && LeadsTo(s, x).Some? ==>
              HasClass(classes + [SuccessorClass(key, m, 1)], LeadsTo(s, x).value)
  {
    hide LeadsTo;
    var classes' := classes + [SuccessorClass(key, m, 1)];
    forall x | x in moves + [m] && LeadsTo(s, x).Some?
      ensures HasClass(classes', LeadsTo(s, x).value)
    {
      if x in moves {
        var i :| 0 <= i < |classes| && classes[i].key == LeadsTo(s, x).value;
        assert classes'[i].key == LeadsTo(s, x).value;
      } else {
        assert classes'[|classes|].key == LeadsTo(s, x).value;
      }
    }
  }

  /** The class a move joins: one more member, and the better-scoring representative. */
  ghost predicate Joins(s: State, m: Move, preferred: Move, c: SuccessorClass, c': SuccessorClass)
    requires Shaped(s)
  {
    && m.Valid() && c.representative.Valid()
    && c'.key == c.key && c'.multiplicity == c.multiplicity + 1
    && c'.representative ==
         (if RepresentativeScore(s, m, preferred) > RepresentativeScore(s, c.representative, preferred) then m
          else c.representative)
  }

  lemma JoinKeepsRight(s: State, moves: seq<Move>, preferred: Move, classes: seq<SuccessorClass>, m: Move, i: int,
                       c: SuccessorClass, j: int)
    requires Shaped(s) && m.Valid() && forall x :: x in moves ==> x.Valid()
    requires Partition(s, moves, preferred, classes) && 0 <= i < |classes| && 0 <= j < |classes|
    requires LeadsTo(s, m) == Some(classes[i].key) && Joins(s, m, preferred, classes[i], c)
    ensures ClassRight(s, moves + [m], preferred, classes[i := c][j])
  {
    hide LeadsTo, ClassRight, RepresentativeScore, HasClass, FirstLeading;
    if j == i {
      ClassGrows(s, moves, preferred, classes[i], m, c);
    } else {
      assert classes[j].key != classes[i].key;
      ClassStillRight(s, moves, preferred, classes[j], m);
    }
  }

  lemma PartitionJoins(s: State, moves: seq<Move>, preferred: Move, classes: seq<SuccessorClass>, m: Move, i: int,
                       c: SuccessorClass)
    requires Shaped(s) && m.Valid() && forall x :: x in moves ==> x.Valid()
    requires Partition(s, moves, preferred, classes) && Apply(s, m).Some?
    requires 0 <= i < |classes| && LeadsTo(s, m) == Some(classes[i].key) && Joins(s, m, preferred, classes[i], c)
    ensures Partition(s, moves + [m], preferred, classes[i := c])
  {
    hide Apply, LeadsTo, RepresentativeScore, ClassRight, FirstLeading;
    assert (moves + [m])[..|moves|] == moves;
    var classes' := classes[i := c];
    TotalAfterUpdate(classes, i, c);
    forall j | 0 <= j < |classes|
      ensures ClassRight(s, moves + [m], preferred, classes'[j]) && classes'[j].key == classes[j].key
    {
      JoinKeepsRight(s, moves, preferred, classes, m, i, c, j);
    }
    forall j, k | 0 <= j < k < |classes|
      ensures FirstLeading(s, moves + [m], classes'[j].key) < FirstLeading(s, moves + [m], classes'[k].key)
    {
      OrderKept(s, moves, preferred, classes, m, j, k);
    }
    SameKeysCover(s, moves, classes, classes', m, i);
  }

  lemma SameKeysCover(s: State, moves: seq<Move>, classes: seq<SuccessorClass>, classes': seq<SuccessorClass>,
                      m: Move, i: int)
    requires 0 <= i < |classes| == |classes'| && LeadsTo(s, m) == Some(classes[i].key)
    requires forall j :: 0 <= j < |classes| ==> classes'[j].key == classes[j].key
    requires forall x :: x in moves && LeadsTo(s, x).Some? ==> HasClass(classes, LeadsTo(s, x).value)
    ensures forall x :: x in moves + [m] && LeadsTo(s, x).Some? ==> HasClass(classes', LeadsTo(s, x).value)
  {
    hide LeadsTo;
    forall x | x in moves + [m] && LeadsTo(s, x).Some?
      ensures HasClass(classes', LeadsTo(s, x).value)
    {
      var j :| 0 <= j < |classes| && classes[j].key == LeadsTo(s, x).value;
      assert classes'[j].key == LeadsTo(s, x).value;
    }
  }

  /** The first class with a key, or -1: a linear scan comparing whole keys. */
  method FindClass(classes: seq<SuccessorClass>, key: CanonKey) returns (found: int)
    ensures -1 <= found < |classes|
    ensures found >= 0 ==> classes[found].key == key
    ensures found < 0 <==> !HasClass(classes, key)
  {
    for i := 0 to |classes|
      invariant forall j :: 0 <= j < i ==> classes[j].key != key
    {
      if classes[i].key == key {
        return i;
      }
    }
    found := -1;
  }

  /** Files one accepted move under the key it leads to. */
  method FileMove(s: State, ghost moves: seq<Move>, preferred: Move, classes: seq<SuccessorClass>, move: Move,
                  key: CanonKey)
    returns (classes': seq<SuccessorClass>)
    requires Shaped(s) && move.Valid() && forall m :: m in moves ==> m.Valid()
    requires Partition(s, moves, preferred, classes) && Apply(s, move).Some? && LeadsTo(s, move) == Some(key)
    ensures Partition(s, moves + [move], preferred, classes')
  {
    hide Apply, Partition, KeyOf, RepresentativeScore, LeadsTo;
    var found := FindClass(classes, key);
    if found < 0 {
      PartitionAdds(s, moves, preferred, classes, move, key);
      classes' := classes + [SuccessorClass(key, move, 1)];
    } else {
      RepresentativeIsListed(s, moves, preferred, classes, found);
      var c := classes[found];
      var better := RepresentativeScore(s, move, preferred) > RepresentativeScore(s, c.representative, preferred);
      var joined := SuccessorClass(c.key, if better then move else c.representative, c.multiplicity + 1);
      PartitionJoins(s, moves, preferred, classes, move, found, joined);
      classes' := classes[found := joined];
    }
  }

  /** Applies each move to a copy, canonicalizes, and files the move under its key. */
  method GenerateEquivalentSuccessorClasses(s: State, legalMoves: seq<Move>, preferred: Move, t: RuleTables)
    returns (classes: seq<SuccessorClass>)
    requires Shaped(s) && ValidTables(t) && forall m :: m in legalMoves ==> m.Valid()
    ensures Partition(s, legalMoves, preferred, classes)
    ensures forall i :: 0 <= i < |classes| ==>
              classes[i].representative.Valid() && IsChosen(s, legalMoves, preferred, classes[i].representative)
  {
    classes := [];
    assert Partition(s, legalMoves[..0], preferred, classes);
    hide Apply, Partition, KeyOf, IsChosen;
    for i := 0 to |legalMoves|
      invariant Partition(s, legalMoves[..i], preferred, classes)
    {
      var move := legalMoves[i];
      assert legalMoves[..i + 1] == legalMoves[..i] + [move] && move in legalMoves;
      var successor := new Position(s);
      var applied, undo := ApplyMove(successor, move, LineageLut, t);
      if !applied {
        PartitionSkips(s, legalMoves[..i], preferred, classes, move);
        continue;
      }
      var key := CanonicalKey(successor.Snapshot());
      classes := FileMove(s, legalMoves[..i], preferred, classes, move, key);
    }
    assert legalMoves[..|legalMoves|] == legalMoves;
    AllAreChosen(s, legalMoves, preferred, classes);
  }

  lemma AllAreChosen(s: State, moves: seq<Move>, preferred: Move, classes: seq<SuccessorClass>)
    requires Shaped(s) && (forall x :: x in moves ==> x.Valid()) && Partition(s, moves, preferred, classes)
    ensures forall i :: 0 <= i < |classes| ==>
              classes[i].representative.Valid() && IsChosen(s, moves, preferred, classes[i].representative)
  {
    hide Partition, IsChosen, LeadsTo;
    forall i | 0 <= i < |classes|
      ensures classes[i].representative.Valid() && IsChosen(s, moves, preferred, classes[i].representative)
    {
      ClassIsChosen(s, moves, preferred, classes, i);
    }
  }

  lemma ClassIsChosen(s: State, moves: seq<Move>, preferred: Move, classes: seq<SuccessorClass>, i: int)
    requires Shaped(s) && (forall x :: x in moves ==> x.Valid()) && Partition(s, moves, preferred, classes)
    requires 0 <= i < |classes|
    ensures classes[i].representative.Valid() && IsChosen(s, moves, preferred, classes[i].representative)
  {
    hide LeadsTo, ClassRight, IsChosen;
    RepresentativeIsChosen(s, moves, preferred, classes[i]);
  }

  lemma RepresentativeIsListed(s: State, moves: seq<Move>, preferred: Move, classes: seq<SuccessorClass>, i: int)
    requires Shaped(s) && (forall x :: x in moves ==> x.Valid()) && Partition(s, moves, preferred, classes)
    requires 0 <= i < |classes|
    ensures classes[i].representative in moves && classes[i].representative.Valid()
    ensures LeadsTo(s, classes[i].representative) == Some(classes[i].key)
  {
    hide LeadsTo, RepresentativeScore, ClassRight;
    ClassIsLedTo(s, moves, preferred, classes[i]);
  }

  // ---------------------------------------------------------------- which move represents a class

  /** The move captures something, and something that can only be a Lion. */
  predicate Captures(s: State, m: Move)
    requires Shaped(s) && m.Valid()
  {
    s.board[m.to] >= 0
  }

  predicate CapturesLion(s: State, m: Move)
    requires Shaped(s) && m.Valid()
  {
    Captures(s, m) && s.mask[s.board[m.to]] == Mask(false, false, false, true, false)
  }

  /** One move goes before another, both leading to one key, neither preferred: a certain Lion captured, then any
      capture, then the lower source, then the lower destination. */
  predicate GoesBefore(s: State, m: Move, n: Move)
    requires Shaped(s) && m.Valid() && n.Valid()
  {
    if CapturesLion(s, m) != CapturesLion(s, n) then CapturesLion(s, m)
    else if Captures(s, m) != Captures(s, n) then Captures(s, m)
    else m.from < n.from || (m.from == n.from && m.to < n.to)
  }

  /** The move kept of all that lead where it leads: the preferred one if it is among them, otherwise the one
      that goes before all others, and of equals the one listed first. */
  ghost predicate IsChosen(s: State, moves: seq<Move>, preferred: Move, c: Move)
    requires Shaped(s) && (forall m :: m in moves ==> m.Valid()) && c.Valid()
  {
    if preferred in moves && LeadsTo(s, preferred) == LeadsTo(s, c) then c == preferred
    else exists k :: 0 <= k < |moves| && moves[k] == c
           && (forall j :: 0 <= j < |moves| && LeadsTo(s, moves[j]) == LeadsTo(s, c) ==> !GoesBefore(s, moves[j], c))
           && (forall j :: 0 <= j < k && LeadsTo(s, moves[j]) == LeadsTo(s, c) ==> GoesBefore(s, c, moves[j]))
  }

  lemma HigherScoreGoesBefore(s: State, m: Move, n: Move, preferred: Move)
    requires Shaped(s) && m.Valid() && n.Valid()
    ensures m == preferred && n != preferred ==>
              RepresentativeScore(s, m, preferred) > RepresentativeScore(s, n, preferred)
    ensures m != preferred && n != preferred ==>
              (RepresentativeScore(s, m, preferred) > RepresentativeScore(s, n, preferred) <==> GoesBefore(s, m, n))
  {
  }

  /** A class is represented by the chosen one of its members. */
  lemma RepresentativeIsChosen(s: State, moves: seq<Move>, preferred: Move, c: SuccessorClass)
    requires Shaped(s) && (forall m :: m in moves ==> m.Valid()) && ClassRight(s, moves, preferred, c)
    ensures c.representative in moves && c.representative.Valid() && LeadsTo(s, c.representative) == Some(c.key)
    ensures IsChosen(s, moves, preferred, c.representative)
  {
    hide LeadsTo, RepresentativeScore, GoesBefore;
    var k := RepresentativeIndex(s, moves, preferred, c);
    var r := c.representative;
    if preferred in moves && LeadsTo(s, preferred) == Some(c.key) {
      HigherScoreGoesBefore(s, preferred, r, preferred);
    } else {
      forall j | 0 <= j < |moves| && LeadsTo(s, moves[j]) == Some(c.key)
        ensures !GoesBefore(s, moves[j], r) && (j < k ==> GoesBefore(s, r, moves[j]))
      {
        assert moves[j] in moves && r in moves;
        HigherScoreGoesBefore(s, moves[j], r, preferred);
        HigherScoreGoesBefore(s, r, moves[j], preferred);
      }
    }
  }

  // ---------------------------------------------------------------- reduction

  /** Two movable hand pieces share owner, origin and mask. */
  predicate DuplicatePair(s: State, left: int, right: int)
    requires Shaped(s) && 0 <= left < PIECE_COUNT && 0 <= right < PIECE_COUNT
  {
    && IsHandPosition(s.pos[left]) && s.owner[left] == s.sideToMove
    && IsHandPosition(s.pos[right]) && s.owner[right] == s.sideToMove
    && s.mask[left] == s.mask[right] && s.origin[left] == s.origin[right]
  }

  predicate HasDuplicateDrop(s: State)
    requires Shaped(s)
  {
    exists left, right :: 0 <= left < right < PIECE_COUNT && DuplicatePair(s, left, right)
  }

  method HasDuplicateDropHint(s: State) returns (hint: bool)
    requires Shaped(s)
    ensures hint <==> HasDuplicateDrop(s)
  {
    for left := 0 to PIECE_COUNT
      invariant forall l, r :: 0 <= l < left && l < r < PIECE_COUNT ==> !DuplicatePair(s, l, r)
    {
      if !IsHandPosition(s.pos[left]) || s.owner[left] != s.sideToMove {
        continue;
      }
      for right := left + 1 to PIECE_COUNT
        invariant forall l, r :: 0 <= l < left && l < r < PIECE_COUNT ==> !DuplicatePair(s, l, r)
        invariant forall r :: left < r < right ==> !DuplicatePair(s, left, r)
      {
        if IsHandPosition(s.pos[right]) && s.owner[right] == s.sideToMove && s.mask[left] == s.mask[right]
           && s.origin[left] == s.origin[right] {
          assert DuplicatePair(s, left, right);
          return true;
        }
      }
    }
    hint := false;
  }

  datatype ReducerOptions = ReducerOptions(threshold: nat, minDepth: int, minDuplicateRatio: real, requireHint: bool)

  /** Every legal move is kept, or leads to the same canonical key as a kept one. */
  ghost predicate Covers(s: State, legal: seq<Move>, kept: seq<Move>)
  {
    && (forall m :: m in kept ==> m in legal)
    && (forall m :: m in legal ==> exists k :: k in kept && LeadsTo(s, k) == LeadsTo(s, m))
  }

  /** The different keys the moves lead to. */
  ghost function KeysLedTo(s: State, moves: seq<Move>): set<Option<CanonKey>> {
    set m | m in moves :: LeadsTo(s, m)
  }

  /** The share of moves that add no new key. */
  function DuplicateRatio(distinct: int, moves: nat): real {
    if moves == 0 then 0.0 else 1.0 - distinct as real / moves as real
  }

  /** There are as many classes as different keys. */
  lemma ClassesCountKeys(s: State, legal: seq<Move>, preferred: Move, classes: seq<SuccessorClass>)
    requires Shaped(s) && forall m :: m in legal ==> m.Valid() && Apply(s, m).Some?
    requires Partition(s, legal, preferred, classes)
    ensures |KeysLedTo(s, legal)| == |classes|
  {
    hide Apply, KeyOf, ClassRight, FirstLeading, RepresentativeScore, Range;
    var keys := seq(|classes|, i requires 0 <= i < |classes| => Some(classes[i].key));
    var indices := Range(0, |classes|);
    var image := set i | i in indices :: keys[i];
    ImageSize(keys, indices, image);
    forall key
      ensures key in image <==> key in KeysLedTo(s, legal)
    {
      KeyHasClass(s, legal, preferred, classes, key);
      if key in image {
        var i :| i in indices && keys[i] == key;
      }
      if key in KeysLedTo(s, legal) {
        var i :| 0 <= i < |classes| && key == Some(classes[i].key);
        assert keys[i] == key;
      }
    }
    assert image == KeysLedTo(s, legal);
  }

  lemma KeyHasClass(s: State, legal: seq<Move>, preferred: Move, classes: seq<SuccessorClass>, key: Option<CanonKey>)
    requires Shaped(s) && forall m :: m in legal ==> m.Valid() && Apply(s, m).Some?
    requires Partition(s, legal, preferred, classes)
    ensures key in KeysLedTo(s, legal) <==> exists i :: 0 <= i < |classes| && key == Some(classes[i].key)
  {
    hide Apply, KeyOf, ClassRight, FirstLeading, RepresentativeScore;
    if key in KeysLedTo(s, legal) {
      var m :| m in legal && LeadsTo(s, m) == key;
      assert LeadsTo(s, m).Some? && HasClass(classes, key.value);
    }
    if i :| 0 <= i < |classes| && key == Some(classes[i].key) {
      ClassIsLedTo(s, legal, preferred, classes[i]);
      assert classes[i].representative in legal;
    }
  }

  lemma EverythingCovers(s: State, legal: seq<Move>)
    ensures Covers(s, legal, legal)
  {
  }

  /** One kept move for each key, the one chosen of those that lead to it. */
  ghost predicate OneForEachKey(s: State, legal: seq<Move>, preferred: Move, kept: seq<Move>)
    requires Shaped(s) && (forall m :: m in legal ==> m.Valid()) && (forall k :: k in kept ==> k.Valid())
  {
    && (forall i, j :: 0 <= i < j < |kept| ==> LeadsTo(s, kept[i]) != LeadsTo(s, kept[j]))
    && forall k :: k in kept ==> IsChosen(s, legal, preferred, k)
  }

  /** Retains one representative of each class when every gate passes, and all legal moves otherwise. */
  method ReduceSuccessors(s: State, legalMoves: seq<Move>, preferred: Move, o: ReducerOptions, depthRemaining: int,
                          lowTime: bool, t: RuleTables) returns (kept: seq<Move>, applied: bool)
    requires Shaped(s) && ValidTables(t)
    requires forall m :: m in legalMoves ==> m.Valid() && Apply(s, m).Some?
    ensures Covers(s, legalMoves, kept)
    ensures applied <==>
              && !lowTime && depthRemaining >= o.minDepth && |legalMoves| >= o.threshold
              && (o.requireHint && o.threshold > 0 ==> HasDuplicateDrop(s))
              && (if legalMoves == [] then 0.0
                  else 1.0 - |KeysLedTo(s, legalMoves)| as real / |legalMoves| as real) >= o.minDuplicateRatio
    ensures applied ==> (forall k :: k in kept ==> k.Valid()) && OneForEachKey(s, legalMoves, preferred, kept)
    ensures preferred in legalMoves ==> preferred in kept
    ensures !applied ==> kept == legalMoves
  {
    hide Apply, KeyOf, KeysLedTo, Partition, Covers, OneForEachKey;
    EverythingCovers(s, legalMoves);
    var trigger := !o.requireHint || o.threshold == 0;
    if !trigger {
      trigger := HasDuplicateDropHint(s);
    }
    applied := !lowTime && depthRemaining >= o.minDepth && |legalMoves| >= o.threshold && trigger;
    if !applied {
      return legalMoves, applied;
    }
    var classes := GenerateEquivalentSuccessorClasses(s, legalMoves, preferred, t);
    ClassesCountKeys(s, legalMoves, preferred, classes);
    if DuplicateRatio(|classes|, |legalMoves|) < o.minDuplicateRatio {
      return legalMoves, false;
    }
    kept := Representatives(classes);
    RepresentativesKept(s, legalMoves, preferred, classes, kept);
    RepresentativesCover(s, legalMoves, preferred, classes, kept);
    RepresentativesDiffer(s, legalMoves, preferred, classes, kept);
    if preferred in legalMoves {
      PreferredIsKept(s, legalMoves, preferred, kept);
    }
  }

  method Representatives(classes: seq<SuccessorClass>) returns (kept: seq<Move>)
    ensures |kept| == |classes| && forall i :: 0 <= i < |classes| ==> kept[i] == classes[i].representative
  {
    kept := [];
    for i := 0 to |classes|
      invariant |kept| == i && forall j :: 0 <= j < i ==> kept[j] == classes[j].representative
    {
      kept := kept + [classes[i].representative];
    }
  }

  /** The kept moves are the representatives, each listed and leading to its class's key. */
  ghost predicate KeepsRepresentatives(s: State, legal: seq<Move>, classes: seq<SuccessorClass>, kept: seq<Move>)
  {
    && |kept| == |classes|
    && forall i :: 0 <= i < |classes| ==>
         && kept[i] == classes[i].representative && kept[i] in legal && kept[i].Valid()
         && LeadsTo(s, kept[i]) == Some(classes[i].key)
  }

  lemma RepresentativesKept(s: State, legal: seq<Move>, preferred: Move, classes: seq<SuccessorClass>, kept: seq<Move>)
    requires Shaped(s) && (forall m :: m in legal ==> m.Valid()) && Partition(s, legal, preferred, classes)
    requires |kept| == |classes| && forall i :: 0 <= i < |classes| ==> kept[i] == classes[i].representative
    ensures KeepsRepresentatives(s, legal, classes, kept)
  {
    hide RepresentativeScore, LeadsTo, Partition;
    forall i | 0 <= i < |classes|
      ensures kept[i] in legal && kept[i].Valid() && LeadsTo(s, kept[i]) == Some(classes[i].key)
    {
      RepresentativeIsListed(s, legal, preferred, classes, i);
    }
  }

  lemma RepresentativesCover(s: State, legal: seq<Move>, preferred: Move, classes: seq<SuccessorClass>, kept: seq<Move>)
    requires Shaped(s) && forall m :: m in legal ==> m.Valid() && Apply(s, m).Some?
    requires Partition(s, legal, preferred, classes) && KeepsRepresentatives(s, legal, classes, kept)
    ensures Covers(s, legal, kept)
  {
    hide RepresentativeScore, Apply, KeyOf, ClassRight;
    forall m | m in legal
      ensures exists k :: k in kept && LeadsTo(s, k) == LeadsTo(s, m)
    {
      assert LeadsTo(s, m).Some?;
      var i :| 0 <= i < |classes| && classes[i].key == LeadsTo(s, m).value;
      assert kept[i] in kept;
    }
  }

  lemma RepresentativesDiffer(s: State, legal: seq<Move>, preferred: Move, classes: seq<SuccessorClass>,
                              kept: seq<Move>)
    requires Shaped(s) && (forall m :: m in legal ==> m.Valid())
    requires Partition(s, legal, preferred, classes) && KeepsRepresentatives(s, legal, classes, kept)
    ensures (forall k :: k in kept ==> k.Valid()) && OneForEachKey(s, legal, preferred, kept)
  {
    hide LeadsTo, HasClass, IsChosen, ClassRight, FirstLeading;
    forall k | k in kept
      ensures IsChosen(s, legal, preferred, k)
    {
      var i :| 0 <= i < |kept| && kept[i] == k;
      ClassIsChosen(s, legal, preferred, classes, i);
    }
  }

  lemma PreferredIsKept(s: State, legal: seq<Move>, preferred: Move, kept: seq<Move>)
    requires Shaped(s) && (forall m :: m in legal ==> m.Valid()) && (forall k :: k in kept ==> k.Valid())
    requires Covers(s, legal, kept) && OneForEachKey(s, legal, preferred, kept) && preferred in legal
    ensures preferred in kept
  {
    hide LeadsTo;
    var k :| k in kept && LeadsTo(s, k) == LeadsTo(s, preferred);
    assert IsChosen(s, legal, preferred, k);
  }

  /** On legal moves the multiplicities add up to the number of moves. */
  lemma {:induction false} AllLegalCounted(s: State, moves: seq<Move>)
    requires forall i :: 0 <= i < |moves| ==> Apply(s, moves[i]).Some?
    ensures CountAccepted(s, moves) == |moves|
  {
    hide Apply;
    if moves != [] {
      AllLegalCounted(s, moves[..|moves| - 1]);
    }
  }
}
