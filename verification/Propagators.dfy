/** The two propagators that shrink a position's masks in place, and the loop that drives either one
    to a fixed point. Both are proved against the closure of the quota rule.
 */
module Propagators {
  import opened Animals
  import opened FiniteSets
  import opened Propagation
  import opened States
  import opened LineageTables

  datatype PropagationMode = LineageLut | PermutationReference

  /** The four pieces of one origin in ascending order. */
  ghost predicate IsGroup(origin: seq<Side>, side: Side, pieces: seq<int>)
  {
    && |origin| == PIECE_COUNT && |pieces| == PIECES_PER_ORIGIN
    && (forall i :: 0 <= i < PIECES_PER_ORIGIN ==> 0 <= pieces[i] < PIECE_COUNT)
    && (forall i, j :: 0 <= i < j < PIECES_PER_ORIGIN ==> pieces[i] < pieces[j])
    && (forall p :: 0 <= p < PIECE_COUNT && origin[p] == side ==> p in pieces)
    && (forall i :: 0 <= i < PIECES_PER_ORIGIN ==> origin[pieces[i]] == side)
  }

  ghost function GroupBelow(origin: seq<Side>, side: Side, n: int): set<int>
    requires |origin| == PIECE_COUNT
  {
    set p | 0 <= p < PIECE_COUNT && p < n && origin[p] == side
  }

  lemma GroupBelowStep(origin: seq<Side>, side: Side, n: int)
    requires |origin| == PIECE_COUNT && 0 <= n < PIECE_COUNT
    ensures |GroupBelow(origin, side, 0)| == 0
    ensures |GroupBelow(origin, side, n + 1)| == |GroupBelow(origin, side, n)| + if origin[n] == side then 1 else 0
    ensures |GroupBelow(origin, side, n + 1)| <= |Group(origin, side)|
    ensures GroupBelow(origin, side, PIECE_COUNT) == Group(origin, side)
  {
    var below, upTo := GroupBelow(origin, side, n), GroupBelow(origin, side, n + 1);
    assert GroupBelow(origin, side, 0) == {};
    assert upTo == below + (if origin[n] == side then {n} else {});
    SubsetSize(upTo, Group(origin, side));
    assert GroupBelow(origin, side, PIECE_COUNT) == Group(origin, side);
  }

  method CollectOriginPieces(origin: seq<Side>, side: Side) returns (ok: bool, pieces: seq<int>)
    requires |origin| == PIECE_COUNT
    ensures ok <==> |Group(origin, side)| == PIECES_PER_ORIGIN
    ensures ok ==> IsGroup(origin, side, pieces)
  {
    pieces := [];
    GroupBelowStep(origin, side, 0);
    hide GroupBelow, Group;
    for piece := 0 to PIECE_COUNT
      invariant |pieces| <= PIECES_PER_ORIGIN
      invariant |GroupBelow(origin, side, piece)| == |pieces|
      invariant forall i :: 0 <= i < |pieces| ==> 0 <= pieces[i] < piece && origin[pieces[i]] == side
      invariant forall i, j :: 0 <= i < j < |pieces| ==> pieces[i] < pieces[j]
      invariant forall p :: 0 <= p < piece && origin[p] == side ==> p in pieces
    {
      GroupBelowStep(origin, side, piece);
      if origin[piece] != side {
        continue;
      }
      if |pieces| >= PIECES_PER_ORIGIN {
        return false, pieces;
      }
      pieces := pieces + [piece];
    }
    ok := |pieces| == PIECES_PER_ORIGIN;
  }

  /** Intersects the masks of the listed pieces with their supported lineages. */
  method ApplySupportedLineages(state: Position, pieces: seq<int>, supported: seq<Lineages>) returns (ok: bool)
    requires |state.mask| == PIECE_COUNT && |pieces| == |supported| == PIECES_PER_ORIGIN
    requires forall i :: 0 <= i < PIECES_PER_ORIGIN ==> 0 <= pieces[i] < PIECE_COUNT
    requires forall i, j :: 0 <= i < j < PIECES_PER_ORIGIN ==> pieces[i] < pieces[j]
    modifies state`mask
    ensures |state.mask| == PIECE_COUNT
    ensures ok <==> forall i :: 0 <= i < PIECES_PER_ORIGIN ==> !old(state.mask)[pieces[i]].Keep(supported[i]).IsEmpty()
    ensures ok ==> forall i :: 0 <= i < PIECES_PER_ORIGIN ==>
                     state.mask[pieces[i]] == old(state.mask)[pieces[i]].Keep(supported[i])
    ensures ok ==> forall p :: 0 <= p < PIECE_COUNT && p !in pieces ==> state.mask[p] == old(state.mask)[p]
  {
    for index := 0 to PIECES_PER_ORIGIN
      invariant |state.mask| == PIECE_COUNT
      invariant forall i :: 0 <= i < index ==>
                  && state.mask[pieces[i]] == old(state.mask)[pieces[i]].Keep(supported[i])
                  && !state.mask[pieces[i]].IsEmpty()
      invariant forall p :: 0 <= p < PIECE_COUNT && p !in pieces[..index] ==> state.mask[p] == old(state.mask)[p]
    {
      var piece := pieces[index];
      assert piece !in pieces[..index];
      state.mask := state.mask[piece := state.mask[piece].Keep(supported[index])];
      assert pieces[..index + 1] == pieces[..index] + [piece];
      if state.mask[piece].IsEmpty() {
        return false;
      }
    }
    assert pieces[..PIECES_PER_ORIGIN] == pieces;
    return true;
  }

  function LinesOf(mask: seq<Mask>, pieces: seq<int>): (r: seq<Lineages>)
    requires |mask| == PIECE_COUNT && |pieces| == PIECES_PER_ORIGIN
    requires forall i :: 0 <= i < PIECES_PER_ORIGIN ==> 0 <= pieces[i] < PIECE_COUNT
    ensures |r| == LINEAGE_COUNT
  {
    seq(LINEAGE_COUNT, i requires 0 <= i < LINEAGE_COUNT => mask[pieces[i]].Lines())
  }

  /** A permutation of the group spread over the whole position. */
  ghost function Spread(pieces: seq<int>, perm: seq<Lineage>): (a: Assignment)
    requires |perm| == |pieces| == PIECES_PER_ORIGIN
    ensures |a| == PIECE_COUNT
  {
    seq(PIECE_COUNT, p => if p == pieces[0] then perm[0] else if p == pieces[1] then perm[1]
                          else if p == pieces[2] then perm[2] else perm[3])
  }

  /** Admitted permutations and side assignments are the same thing seen two ways. */
  lemma PermutationFitsSide(origin: seq<Side>, mask: seq<Mask>, side: Side, pieces: seq<int>, perm: seq<Lineage>)
    requires IsGroup(origin, side, pieces) && |mask| == PIECE_COUNT
    requires Distinct(perm) && Admits(LinesOf(mask, pieces), perm)
    ensures FitsSide(origin, mask, side, Spread(pieces, perm))
    ensures forall i :: 0 <= i < PIECES_PER_ORIGIN ==> Spread(pieces, perm)[pieces[i]] == perm[i]
  {
    var a := Spread(pieces, perm);
    assert forall i :: 0 <= i < PIECES_PER_ORIGIN ==> a[pieces[i]] == perm[i];
    forall p | 0 <= p < PIECE_COUNT && origin[p] == side
      ensures mask[p].Lines().Has(a[p])
    {
      var i :| 0 <= i < |pieces| && pieces[i] == p;
      assert LinesOf(mask, pieces)[i].Has(perm[i]);
    }
    forall p, q | 0 <= p < q < PIECE_COUNT && origin[p] == side && origin[q] == side
      ensures a[p] != a[q]
    {
      var i :| 0 <= i < |pieces| && pieces[i] == p;
      var j :| 0 <= j < |pieces| && pieces[j] == q;
      assert i != j && perm[i] != perm[j];
    }
  }

  lemma SideFitsPermutation(origin: seq<Side>, mask: seq<Mask>, side: Side, pieces: seq<int>, a: Assignment)
    returns (k: int)
    requires IsGroup(origin, side, pieces) && FitsSide(origin, mask, side, a)
    ensures 0 <= k < |PERMUTATIONS| && Admits(LinesOf(mask, pieces), PERMUTATIONS[k])
    ensures |PERMUTATIONS[k]| == PIECES_PER_ORIGIN
    ensures forall i :: 0 <= i < PIECES_PER_ORIGIN ==> PERMUTATIONS[k][i] == a[pieces[i]]
  {
    var perm := [a[pieces[0]], a[pieces[1]], a[pieces[2]], a[pieces[3]]];
    hide PERMUTATIONS;
    assert forall i :: 0 <= i < LINEAGE_COUNT ==> perm[i] == a[pieces[i]];
    forall i, j | 0 <= i < j < LINEAGE_COUNT
      ensures perm[i] != perm[j]
    {
      var p, q := pieces[i], pieces[j];
      assert p < q && origin[p] == side && origin[q] == side;
    }
    k := EveryPermutationIsListed(perm);
  }

  /** The entry of a group's lineages is the side's satisfiability and support. */
  lemma EntryIsSideSupport(origin: seq<Side>, mask: seq<Mask>, side: Side, pieces: seq<int>, e: Entry)
    requires IsGroup(origin, side, pieces) && |mask| == PIECE_COUNT
    requires IsEntry(LinesOf(mask, pieces), e)
    ensures e.valid <==> SideSatisfiable(origin, mask, side)
    ensures forall i :: 0 <= i < PIECES_PER_ORIGIN ==> e.supported[i] == SideSupportOf(origin, mask, side, pieces[i])
  {
    var lines := LinesOf(mask, pieces);
    if e.valid {
      var k :| 0 <= k < |PERMUTATIONS| && Admits(lines, PERMUTATIONS[k]);
      PermutationsAreDistinct();
      PermutationFitsSide(origin, mask, side, pieces, PERMUTATIONS[k]);
    }
    if SideSatisfiable(origin, mask, side) {
      var a :| FitsSide(origin, mask, side, a);
      var k := SideFitsPermutation(origin, mask, side, pieces, a);
    }
    forall i | 0 <= i < PIECES_PER_ORIGIN
      ensures e.supported[i] == SideSupportOf(origin, mask, side, pieces[i])
    {
      EntrySupportsAt(origin, mask, side, pieces, e, i, ChickLine);
      EntrySupportsAt(origin, mask, side, pieces, e, i, GiraffeLine);
      EntrySupportsAt(origin, mask, side, pieces, e, i, ElephantLine);
      EntrySupportsAt(origin, mask, side, pieces, e, i, LionLine);
    }
  }

  lemma EntrySupportsAt(origin: seq<Side>, mask: seq<Mask>, side: Side, pieces: seq<int>, e: Entry, i: int, x: Lineage)
    requires IsGroup(origin, side, pieces) && |mask| == PIECE_COUNT
    requires IsEntry(LinesOf(mask, pieces), e) && 0 <= i < PIECES_PER_ORIGIN
    ensures e.supported[i].Has(x) <==> SideSupports(origin, mask, side, pieces[i], x)
  {
    var lines := LinesOf(mask, pieces);
    if e.supported[i].Has(x) {
      var k :| 0 <= k < |PERMUTATIONS| && Admits(lines, PERMUTATIONS[k]) && PERMUTATIONS[k][i] == x;
      PermutationsAreDistinct();
      PermutationFitsSide(origin, mask, side, pieces, PERMUTATIONS[k]);
    }
    if SideSupports(origin, mask, side, pieces[i], x) {
      var a :| FitsSide(origin, mask, side, a) && a[pieces[i]] == x;
      var k := SideFitsPermutation(origin, mask, side, pieces, a);
      assert PERMUTATIONS[k][i] == x;
    }
  }

  /** A piece with a supported lineage keeps a form. */
  lemma SupportedFormsRemain(origin: seq<Side>, mask: seq<Mask>, side: Side, p: int)
    requires SideSatisfiable(origin, mask, side) && |origin| == PIECE_COUNT
    requires 0 <= p < PIECE_COUNT && origin[p] == side
    ensures |mask| == PIECE_COUNT && !mask[p].Keep(SideSupportOf(origin, mask, side, p)).IsEmpty()
  {
    var a :| FitsSide(origin, mask, side, a);
    assert SideSupports(origin, mask, side, p, a[p]);
    assert mask[p].Lines().Has(a[p]);
  }

  lemma GroupClosure(origin: seq<Side>, mask: seq<Mask>, mask': seq<Mask>, side: Side, pieces: seq<int>, e: Entry)
    requires IsGroup(origin, side, pieces) && |mask| == |mask'| == PIECE_COUNT
    requires IsEntry(LinesOf(mask, pieces), e)
    requires forall i :: 0 <= i < PIECES_PER_ORIGIN ==> mask'[pieces[i]] == mask[pieces[i]].Keep(e.supported[i])
    requires forall p :: 0 <= p < PIECE_COUNT && p !in pieces ==> mask'[p] == mask[p]
    ensures mask' == SideClosure(origin, mask, side)
  {
    EntryIsSideSupport(origin, mask, side, pieces, e);
    forall p | 0 <= p < PIECE_COUNT
      ensures mask'[p] == SideClosure(origin, mask, side)[p]
    {
      if origin[p] == side {
        var i :| 0 <= i < |pieces| && pieces[i] == p;
      } else {
        assert p !in pieces;
      }
    }
  }

  /** Whether one origin can be propagated on its own. */
  ghost predicate Closes(origin: seq<Side>, mask: seq<Mask>, side: Side)
    requires |origin| == |mask| == PIECE_COUNT
  {
    |Group(origin, side)| == PIECES_PER_ORIGIN && SideSatisfiable(origin, mask, side)
  }

  /** One origin by exhaustive permutations. */
  method PropagateOriginReference(state: Position, side: Side) returns (ok: bool)
    requires |state.mask| == |state.origin| == PIECE_COUNT
    modifies state`mask
    ensures |state.mask| == PIECE_COUNT
    ensures ok <==> Closes(state.origin, old(state.mask), side)
    ensures state.mask == if ok then SideClosure(state.origin, old(state.mask), side) else old(state.mask)
  {
    var collected, pieces := CollectOriginPieces(state.origin, side);
    if !collected {
      return false;
    }
    PermutationsAreDistinct();
    ghost var lines := LinesOf(state.mask, pieces);
    var supported := seq(LINEAGE_COUNT, _ => NO_LINEAGES);
    var found := false;
    NoPermutationTried(lines);
    hide IsPartialEntry, IsGroup;
    var k := 0;
    while k < |PERMUTATIONS|
      invariant 0 <= k <= |PERMUTATIONS| && |supported| == LINEAGE_COUNT
      invariant IsPartialEntry(lines, k, Entry(supported, found))
      modifies {}
    {
      var permutation := PERMUTATIONS[k];
      var valid := true;
      var index := 0;
      while index < LINEAGE_COUNT
        invariant 0 <= index <= LINEAGE_COUNT
        invariant valid ==> forall i :: 0 <= i < index ==> lines[i].Has(permutation[i])
        invariant !valid ==> !Admits(lines, permutation)
        modifies {}
      {
        assert lines[index] == state.mask[pieces[index]].Lines();
        if !state.mask[pieces[index]].Lines().Has(permutation[index]) {
          valid := false;
          break;
        }
        index := index + 1;
      }
      assert valid <==> Admits(lines, permutation);
      ghost var before := Entry(supported, found);
      if valid {
        found := true;
        supported := AddPermutation(supported, permutation);
      }
      OneMorePermutation(lines, k, before, Entry(supported, found));
      k := k + 1;
    }
    ghost var e := Entry(supported, found);
    EntryIsSideSupport(state.origin, state.mask, side, pieces, e);
    if !found {
      return false;
    }
    ok := FinishOrigin(state, side, pieces, supported, e);
  }

  /** The step both propagators share once support is known. */
  method FinishOrigin(state: Position, side: Side, pieces: seq<int>, supported: seq<Lineages>, ghost e: Entry)
    returns (ok: bool)
    requires |state.mask| == PIECE_COUNT && IsGroup(state.origin, side, pieces)
    requires IsEntry(LinesOf(state.mask, pieces), e) && e.valid && e.supported == supported
    modifies state`mask
    ensures ok && |state.mask| == PIECE_COUNT
    ensures state.mask == SideClosure(state.origin, old(state.mask), side)
  {
    EntryIsSideSupport(state.origin, state.mask, side, pieces, e);
    forall i | 0 <= i < PIECES_PER_ORIGIN
      ensures !state.mask[pieces[i]].Keep(supported[i]).IsEmpty()
    {
      SupportedFormsRemain(state.origin, state.mask, side, pieces[i]);
    }
    ok := ApplySupportedLineages(state, pieces, supported);
    GroupClosure(state.origin, old(state.mask), state.mask, side, pieces, e);
  }

  /** One origin through the lookup table. */
  method PropagateOriginLut(state: Position, side: Side, table: seq<Entry>) returns (ok: bool)
    requires |state.mask| == |state.origin| == PIECE_COUNT && IsLineageTable(table)
    modifies state`mask
    ensures |state.mask| == PIECE_COUNT
    ensures ok <==> Closes(state.origin, old(state.mask), side)
    ensures state.mask == if ok then SideClosure(state.origin, old(state.mask), side) else old(state.mask)
  {
    var collected, pieces := CollectOriginPieces(state.origin, side);
    if !collected {
      return false;
    }
    var lineages := seq(LINEAGE_COUNT, _ => NO_LINEAGES);
    for index := 0 to LINEAGE_COUNT
      invariant |lineages| == LINEAGE_COUNT
      invariant forall i :: 0 <= i < index ==> lineages[i] == state.mask[pieces[i]].Lines()
    {
      lineages := lineages[index := state.mask[pieces[index]].Lines()];
    }
    assert lineages == LinesOf(state.mask, pieces);
    var key := LineageKey(lineages);
    var entry := table[key];
    EntryIsSideSupport(state.origin, state.mask, side, pieces, entry);
    if !entry.valid {
      return false;
    }
    ok := FinishOrigin(state, side, pieces, entry.supported, entry);
  }

  method PropagateOrigin(state: Position, side: Side, mode: PropagationMode, table: seq<Entry>) returns (ok: bool)
    requires |state.mask| == |state.origin| == PIECE_COUNT && IsLineageTable(table)
    modifies state`mask
    ensures |state.mask| == PIECE_COUNT
    ensures ok <==> Closes(state.origin, old(state.mask), side)
    ensures state.mask == if ok then SideClosure(state.origin, old(state.mask), side) else old(state.mask)
  {
    if mode == PermutationReference {
      ok := PropagateOriginReference(state, side);
    } else {
      ok := PropagateOriginLut(state, side, table);
    }
  }

  /** Whether both origins close, and to what. */
  lemma PassIsClosure(origin: seq<Side>, mask: seq<Mask>)
    requires |origin| == |mask| == PIECE_COUNT
    ensures Satisfiable(origin, mask) <==>
              Closes(origin, mask, South) && Closes(origin, SideClosure(origin, mask, South), North)
    ensures Satisfiable(origin, mask) ==>
              SideClosure(origin, SideClosure(origin, mask, South), North) == Closure(origin, mask)
  {
    SatisfiableBySides(origin, mask);
    SideDependsOnOwnMasks(origin, mask, SideClosure(origin, mask, South), North);
    if Satisfiable(origin, mask) {
      SatisfiableGroupsOfFour(origin, mask);
      ClosureBySides(origin, mask);
    }
  }

  ghost function ClosedSide(origin: seq<Side>, mask: seq<Mask>, side: Side): (r: seq<Mask>)
    requires |origin| == |mask| == PIECE_COUNT
    ensures |r| == PIECE_COUNT
  {
    if Closes(origin, mask, side) then SideClosure(origin, mask, side) else mask
  }

  /** The masks a contradiction leaves behind: untouched if one is empty, otherwise with each origin that
      closes closed, South first. */
  ghost function Refused(origin: seq<Side>, mask: seq<Mask>): (r: seq<Mask>)
    requires |origin| == |mask| == PIECE_COUNT
  {
    if exists p :: 0 <= p < PIECE_COUNT && mask[p].IsEmpty() then mask
    else ClosedSide(origin, ClosedSide(origin, mask, South), North)
  }

  /** Drives a propagator until no mask changes. Whatever the mode, the verdict is satisfiability, the
      masks become the closure or what a contradiction leaves, and at most two passes run. */
  method Propagate(state: Position, mode: PropagationMode, table: seq<Entry>) returns (ok: bool, passes: nat)
    requires |state.mask| == |state.origin| == PIECE_COUNT && IsLineageTable(table)
    modifies state`mask
    ensures |state.mask| == PIECE_COUNT
    ensures ok <==> Satisfiable(state.origin, old(state.mask))
    ensures state.mask == if ok then Closure(state.origin, old(state.mask)) else Refused(state.origin, old(state.mask))
    ensures passes <= 2
  {
    var changed := true;
    passes := 0;
    while changed
      invariant |state.mask| == PIECE_COUNT && passes <= 2
      invariant passes == 0 ==> state.mask == old(state.mask) && changed
      invariant passes > 0 ==> Closed(state.origin, state.mask) && state.mask == Closure(state.origin, old(state.mask))
      invariant passes > 0 ==> Satisfiable(state.origin, old(state.mask))
      invariant passes == 2 ==> !changed
      decreases 2 - passes
    {
      passes := passes + 1;
      var before := state.mask;
      var index := 0;
      while index < PIECE_COUNT
        invariant 0 <= index <= PIECE_COUNT
        invariant forall p :: 0 <= p < index ==> !state.mask[p].IsEmpty()
      {
        if state.mask[index].IsEmpty() {
          EmptyMaskContradicts(state.origin, state.mask, index);
          return false, passes;
        }
        index := index + 1;
      }
      PassIsClosure(state.origin, before);
      var southOk := PropagateOrigin(state, South, mode, table);
      var afterSouth := state.mask;
      var northOk := PropagateOrigin(state, North, mode, table);
      if !southOk || !northOk {
        return false, passes;
      }
      ClosureIsClosed(state.origin, before);
      changed := state.mask != before;
    }
    ok := true;
  }

  lemma EmptyMaskContradicts(origin: seq<Side>, mask: seq<Mask>, p: int)
    requires |mask| == PIECE_COUNT && 0 <= p < PIECE_COUNT && mask[p].IsEmpty()
    ensures !Satisfiable(origin, mask)
  {
  }
}
