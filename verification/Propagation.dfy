/** The quota rule, stated without labels or loops.

    An assignment gives every piece a lineage it may still have, and no two pieces of one origin
    share a lineage. Closing a position keeps exactly the forms some assignment uses.
 */
module Propagation {
  import opened Animals
  import opened FiniteSets

  type Assignment = seq<Lineage>

  ghost predicate Fits(origin: seq<Side>, mask: seq<Mask>, a: Assignment)
  {
    && |origin| == |mask| == |a| == PIECE_COUNT
    && (forall p :: 0 <= p < PIECE_COUNT ==> mask[p].Lines().Has(a[p]))
    && (forall p, q :: 0 <= p < q < PIECE_COUNT && origin[p] == origin[q] ==> a[p] != a[q])
  }

  ghost predicate Satisfiable(origin: seq<Side>, mask: seq<Mask>)
  {
    exists a :: Fits(origin, mask, a)
  }

  ghost predicate Supports(origin: seq<Side>, mask: seq<Mask>, p: int, x: Lineage)
  {
    0 <= p < PIECE_COUNT && exists a {:trigger Fits(origin, mask, a)} :: Fits(origin, mask, a) && a[p] == x
  }

  ghost function SupportOf(origin: seq<Side>, mask: seq<Mask>, p: int): Lineages
  {
    Lineages(Supports(origin, mask, p, ChickLine), Supports(origin, mask, p, GiraffeLine),
             Supports(origin, mask, p, ElephantLine), Supports(origin, mask, p, LionLine))
  }

  /** What propagation must compute: every mask cut down to its supported lineages. */
  ghost function Closure(origin: seq<Side>, mask: seq<Mask>): (r: seq<Mask>)
    requires |mask| == PIECE_COUNT
    ensures |r| == PIECE_COUNT
  {
    seq(PIECE_COUNT, p requires 0 <= p < PIECE_COUNT => mask[p].Keep(SupportOf(origin, mask, p)))
  }

  /** The fixed points: every form that is left has a witness. */
  ghost predicate Closed(origin: seq<Side>, mask: seq<Mask>)
  {
    && |mask| == PIECE_COUNT && Satisfiable(origin, mask)
    && forall p, x {:trigger Supports(origin, mask, p, x)} ::
         0 <= p < PIECE_COUNT && mask[p].Lines().Has(x) ==> Supports(origin, mask, p, x)
  }

  /** Closing changes nothing exactly at the fixed points. */
  lemma ClosedIsFixedPoint(origin: seq<Side>, mask: seq<Mask>)
    requires |mask| == PIECE_COUNT
    ensures Closed(origin, mask) <==> Satisfiable(origin, mask) && Closure(origin, mask) == mask
  {
    hide Supports, Satisfiable;
    if Closed(origin, mask) {
      forall p | 0 <= p < PIECE_COUNT
        ensures Closure(origin, mask)[p] == mask[p]
      {
        KeepOwnLines(mask[p], SupportOf(origin, mask, p));
      }
    }
    if Closure(origin, mask) == mask {
      forall p, x: Lineage | 0 <= p < PIECE_COUNT && mask[p].Lines().Has(x)
        ensures Supports(origin, mask, p, x)
      {
        assert mask[p] == mask[p].Keep(SupportOf(origin, mask, p));
      }
    }
  }

  lemma KeepOwnLines(m: Mask, ls: Lineages)
    requires forall x: Lineage :: m.Lines().Has(x) ==> ls.Has(x)
    ensures m.Keep(ls) == m
  {
    assert m.Lines().Has(ChickLine) ==> ls.Has(ChickLine);
    assert m.Lines().Has(GiraffeLine) ==> ls.Has(GiraffeLine);
    assert m.Lines().Has(ElephantLine) ==> ls.Has(ElephantLine);
    assert m.Lines().Has(LionLine) ==> ls.Has(LionLine);
  }

  /** No assignment is lost or gained by closing. */
  lemma ClosureKeepsAssignments(origin: seq<Side>, mask: seq<Mask>, a: Assignment)
    requires |mask| == PIECE_COUNT
    ensures Fits(origin, mask, a) <==> Fits(origin, Closure(origin, mask), a)
  {
    var closed := Closure(origin, mask);
    if Fits(origin, mask, a) {
      forall p | 0 <= p < PIECE_COUNT
        ensures closed[p].Lines().Has(a[p])
      {
        assert Supports(origin, mask, p, a[p]);
      }
    }
  }

  /** A lineage survives closing exactly when an assignment of the original masks uses it. */
  lemma ClosureKeepsExactlySupported(origin: seq<Side>, mask: seq<Mask>, p: int, x: Lineage)
    requires |mask| == PIECE_COUNT && 0 <= p < PIECE_COUNT
    ensures Closure(origin, mask)[p].Lines().Has(x) <==> Supports(origin, mask, p, x)
  {
    if Supports(origin, mask, p, x) {
      var a :| Fits(origin, mask, a) && a[p] == x;
      assert mask[p].Lines().Has(x);
    }
  }

  /** Form by form: closing strikes a form exactly when no assignment gives the piece the form's lineage, and
      Chick and Hen are forms of one lineage. */
  lemma ClosureFormByForm(origin: seq<Side>, mask: seq<Mask>, p: int)
    requires |mask| == PIECE_COUNT && 0 <= p < PIECE_COUNT
    ensures var before, after := mask[p], Closure(origin, mask)[p];
            && (after.chick <==> before.chick && exists a :: Fits(origin, mask, a) && a[p] == ChickLine)
            && (after.hen <==> before.hen && exists a :: Fits(origin, mask, a) && a[p] == ChickLine)
            && (after.giraffe <==> before.giraffe && exists a :: Fits(origin, mask, a) && a[p] == GiraffeLine)
            && (after.elephant <==> before.elephant && exists a :: Fits(origin, mask, a) && a[p] == ElephantLine)
            && (after.lion <==> before.lion && exists a :: Fits(origin, mask, a) && a[p] == LionLine)
  {
    hide Fits;
    var support := SupportOf(origin, mask, p);
    assert Closure(origin, mask)[p] == mask[p].Keep(support);
    assert support.ch == Supports(origin, mask, p, ChickLine) && support.g == Supports(origin, mask, p, GiraffeLine);
  }

  lemma ClosureIsClosed(origin: seq<Side>, mask: seq<Mask>)
    requires Satisfiable(origin, mask)
    ensures Closed(origin, Closure(origin, mask))
  {
    var closed := Closure(origin, mask);
    var a :| Fits(origin, mask, a);
    ClosureKeepsAssignments(origin, mask, a);
    forall p | 0 <= p < PIECE_COUNT
      ensures SupportOf(origin, closed, p) == SupportOf(origin, mask, p)
    {
      forall x: Lineage
        ensures Supports(origin, closed, p, x) <==> Supports(origin, mask, p, x)
      {
        if Supports(origin, closed, p, x) {
          var b :| Fits(origin, closed, b) && b[p] == x;
          ClosureKeepsAssignments(origin, mask, b);
        }
        if Supports(origin, mask, p, x) {
          var b :| Fits(origin, mask, b) && b[p] == x;
          ClosureKeepsAssignments(origin, mask, b);
        }
      }
    }
    assert Closure(origin, closed) == closed;
  }

  /** At a fixed point every surviving lineage has a witness. */
  lemma ClosedHasWitness(origin: seq<Side>, mask: seq<Mask>, p: int, x: Lineage) returns (a: Assignment)
    requires Closed(origin, mask) && 0 <= p < PIECE_COUNT && mask[p].Lines().Has(x)
    ensures Fits(origin, mask, a) && a[p] == x
  {
    ClosureKeepsExactlySupported(origin, mask, p, x);
    a :| Fits(origin, mask, a) && a[p] == x;
  }

  // ---------------------------------------------------------------- one origin at a time

  ghost predicate FitsSide(origin: seq<Side>, mask: seq<Mask>, side: Side, a: Assignment)
  {
    && |origin| == |mask| == |a| == PIECE_COUNT
    && (forall p :: 0 <= p < PIECE_COUNT && origin[p] == side ==> mask[p].Lines().Has(a[p]))
    && (forall p, q :: 0 <= p < q < PIECE_COUNT && origin[p] == side && origin[q] == side ==> a[p] != a[q])
  }

  ghost predicate SideSatisfiable(origin: seq<Side>, mask: seq<Mask>, side: Side)
  {
    exists a :: FitsSide(origin, mask, side, a)
  }

  ghost predicate SideSupports(origin: seq<Side>, mask: seq<Mask>, side: Side, p: int, x: Lineage)
  {
    && 0 <= p < PIECE_COUNT
    && exists a {:trigger FitsSide(origin, mask, side, a)} :: FitsSide(origin, mask, side, a) && a[p] == x
  }

  ghost function SideSupportOf(origin: seq<Side>, mask: seq<Mask>, side: Side, p: int): Lineages
  {
    Lineages(SideSupports(origin, mask, side, p, ChickLine), SideSupports(origin, mask, side, p, GiraffeLine),
             SideSupports(origin, mask, side, p, ElephantLine), SideSupports(origin, mask, side, p, LionLine))
  }

  ghost function SideClosure(origin: seq<Side>, mask: seq<Mask>, side: Side): (r: seq<Mask>)
    requires |origin| == |mask| == PIECE_COUNT
    ensures |r| == PIECE_COUNT
  {
    seq(PIECE_COUNT, p requires 0 <= p < PIECE_COUNT =>
      if origin[p] == side then mask[p].Keep(SideSupportOf(origin, mask, side, p)) else mask[p])
  }

  /** Takes one side's lineages from a and the other's from b. */
  ghost function Merge(origin: seq<Side>, side: Side, a: Assignment, b: Assignment): (r: Assignment)
    requires |origin| == |a| == |b| == PIECE_COUNT
    ensures |r| == PIECE_COUNT
  {
    seq(PIECE_COUNT, p requires 0 <= p < PIECE_COUNT => if origin[p] == side then a[p] else b[p])
  }

  lemma MergeFits(origin: seq<Side>, mask: seq<Mask>, side: Side, a: Assignment, b: Assignment)
    requires FitsSide(origin, mask, side, a) && FitsSide(origin, mask, side.Opposite(), b)
    ensures Fits(origin, mask, Merge(origin, side, a, b))
  {
  }

  lemma SatisfiableBySides(origin: seq<Side>, mask: seq<Mask>)
    ensures Satisfiable(origin, mask) <==>
              SideSatisfiable(origin, mask, South) && SideSatisfiable(origin, mask, North)
  {
    if Satisfiable(origin, mask) {
      var a :| Fits(origin, mask, a);
      assert FitsSide(origin, mask, South, a) && FitsSide(origin, mask, North, a);
    }
    if SideSatisfiable(origin, mask, South) && SideSatisfiable(origin, mask, North) {
      var a :| FitsSide(origin, mask, South, a);
      var b :| FitsSide(origin, mask, North, b);
      MergeFits(origin, mask, South, a, b);
    }
  }

  /** Support within the whole position is support within the piece's own origin. */
  lemma SupportBySide(origin: seq<Side>, mask: seq<Mask>, p: int)
    requires Satisfiable(origin, mask) && 0 <= p < PIECE_COUNT
    ensures |origin| == PIECE_COUNT
    ensures SupportOf(origin, mask, p) == SideSupportOf(origin, mask, origin[p], p)
  {
    var b :| Fits(origin, mask, b);
    var side := origin[p];
    forall x: Lineage
      ensures Supports(origin, mask, p, x) <==> SideSupports(origin, mask, side, p, x)
    {
      if Supports(origin, mask, p, x) {
        var a :| Fits(origin, mask, a) && a[p] == x;
        assert FitsSide(origin, mask, side, a);
      }
      if SideSupports(origin, mask, side, p, x) {
        var a :| FitsSide(origin, mask, side, a) && a[p] == x;
        MergeFits(origin, mask, side, a, b);
        assert Merge(origin, side, a, b)[p] == x;
      }
    }
  }

  /** One side's constraints do not depend on the other side's masks. */
  lemma SideDependsOnOwnMasks(origin: seq<Side>, mask: seq<Mask>, mask': seq<Mask>, side: Side)
    requires |origin| == |mask| == |mask'| == PIECE_COUNT
    requires forall p :: 0 <= p < PIECE_COUNT && origin[p] == side ==> mask[p] == mask'[p]
    ensures SideSatisfiable(origin, mask, side) <==> SideSatisfiable(origin, mask', side)
    ensures forall p :: 0 <= p < PIECE_COUNT ==>
              SideSupportOf(origin, mask, side, p) == SideSupportOf(origin, mask', side, p)
  {
    assert forall a :: FitsSide(origin, mask, side, a) <==> FitsSide(origin, mask', side, a);
    forall p | 0 <= p < PIECE_COUNT
      ensures SideSupportOf(origin, mask, side, p) == SideSupportOf(origin, mask', side, p)
    {
      forall x: Lineage
        ensures SideSupports(origin, mask, side, p, x) <==> SideSupports(origin, mask', side, p, x)
      {
      }
    }
  }

  /** Closing South and then North closes the position. */
  lemma ClosureBySides(origin: seq<Side>, mask: seq<Mask>)
    requires Satisfiable(origin, mask)
    ensures |origin| == |mask| == PIECE_COUNT
    ensures SideSatisfiable(origin, SideClosure(origin, mask, South), North)
    ensures SideClosure(origin, SideClosure(origin, mask, South), North) == Closure(origin, mask)
  {
    SatisfiableBySides(origin, mask);
    var middle := SideClosure(origin, mask, South);
    SideDependsOnOwnMasks(origin, mask, middle, North);
    forall p | 0 <= p < PIECE_COUNT
      ensures SideClosure(origin, middle, North)[p] == Closure(origin, mask)[p]
    {
      SupportBySide(origin, mask, p);
    }
  }

  // ---------------------------------------------------------------- four pieces per origin

  ghost function Group(origin: seq<Side>, side: Side): set<int>
    requires |origin| == PIECE_COUNT
  {
    set p | 0 <= p < PIECE_COUNT && origin[p] == side
  }

  lemma GroupsPartition(origin: seq<Side>)
    requires |origin| == PIECE_COUNT
    ensures |Group(origin, South)| + |Group(origin, North)| == PIECE_COUNT
  {
    hide Range;
    var south, north := Group(origin, South), Group(origin, North);
    forall p
      ensures p in south + north <==> p in Range(0, PIECE_COUNT)
    {
      if 0 <= p < PIECE_COUNT {
        assert origin[p].South? || origin[p].North?;
      }
    }
    assert south + north == Range(0, PIECE_COUNT);
    assert south !! north;
  }

  lemma RankTells(x: Lineage, y: Lineage)
    requires Rank(x) == Rank(y)
    ensures x == y
  {
    match x {
      case ChickLine =>
      case GiraffeLine =>
      case ElephantLine =>
      case LionLine =>
    }
  }

  /** Distinct lineages leave room for no more pieces than there are lineages to choose from. */
  lemma DistinctLineagesBound(pieces: set<int>, a: Assignment, choices: nat)
    requires |a| == PIECE_COUNT
    requires forall p :: p in pieces ==> 0 <= p < PIECE_COUNT && Rank(a[p]) < choices
    requires forall p, q :: p in pieces && q in pieces && p != q ==> a[p] != a[q]
    ensures |pieces| <= choices
  {
    hide Rank, Range;
    var ranks := seq(PIECE_COUNT, p requires 0 <= p < PIECE_COUNT => Rank(a[p]));
    var image := set p | p in pieces :: ranks[p];
    forall p, q | p in pieces && q in pieces && p != q
      ensures ranks[p] != ranks[q]
    {
      if Rank(a[p]) == Rank(a[q]) {
        RankTells(a[p], a[q]);
      }
    }
    ImageSize(ranks, pieces, image);
    SubsetSize(image, Range(0, choices));
  }

  lemma SatisfiableGroupsOfFour(origin: seq<Side>, mask: seq<Mask>)
    requires Satisfiable(origin, mask)
    ensures |origin| == PIECE_COUNT
    ensures forall side :: |Group(origin, side)| == PIECES_PER_ORIGIN
  {
    var a :| Fits(origin, mask, a);
    DistinctLineagesBound(Group(origin, South), a, PIECES_PER_ORIGIN);
    DistinctLineagesBound(Group(origin, North), a, PIECES_PER_ORIGIN);
    GroupsPartition(origin);
    forall side
      ensures |Group(origin, side)| == PIECES_PER_ORIGIN
    {
      assert side.South? || side.North?;
    }
  }
}
