/** Four pieces of one side, each in a superposition of the four animals, narrowed by observations.

    The object keeps only masks. They are always the exact projection of the permutations that satisfy
    every accepted observation, so the order of consistent observations leaves no trace.
 */
module QuantumStates {
  import opened Animals
  import opened LineageTables

  const QUBITS := 4

  /** A claim about one piece: its animal is among the allowed ones. */
  datatype Observation = Observation(piece: int, allowed: Mask)

  datatype Outcome = Accepted | OutOfRange | Contradiction | Unmeasurable

  datatype Probability = Probability(matching: nat, total: nat)

  /** The unpromoted form of a lineage. */
  function FormOf(x: Lineage): Animal {
    match x
    case ChickLine => Chick
    case GiraffeLine => Giraffe
    case ElephantLine => Elephant
    case LionLine => Lion
  }

  function Bit(a: Animal): Mask {
    Mask(a.Chick?, a.Giraffe?, a.Elephant?, a.Lion?, a.Hen?)
  }

  function AllBut(a: Animal): Mask {
    Mask(!a.Chick?, !a.Giraffe?, !a.Elephant?, !a.Lion?, false)
  }

  /** The animals able to make a displacement. */
  function AnimalsForMove(dx: int, dy: int, side: Side): Mask {
    if (dx == 0 && dy == 0) || dx < -1 || dx > 1 || dy < -1 || dy > 1 then NO_FORMS
    else Mask(dx == 0 && dy == Forward(side), (dx == 0) != (dy == 0), dx != 0 && dy != 0, true, false)
  }

  /** It is the geometry of the board rules, except that it knows no Hen. */
  lemma AnimalsForMoveAreMovers(side: Side, from: int, to: int)
    ensures AnimalsForMove(Col(to) - Col(from), Row(to) - Row(from), side) == Movers(side, from, to).(hen := false)
  {
  }

  /** Which animals make a displacement, forward being a smaller row for South and a larger one for North. */
  lemma DisplacementInWords(dx: int, dy: int, side: Side)
    ensures var m := AnimalsForMove(dx, dy, side);
            && (m.chick <==> dx == 0 && dy == if side.South? then -1 else 1)
            && (m.giraffe <==> (dx in {-1, 1} && dy == 0) || (dx == 0 && dy in {-1, 1}))
            && (m.elephant <==> dx in {-1, 1} && dy in {-1, 1})
            && (m.lion <==> -1 <= dx <= 1 && -1 <= dy <= 1 && (dx, dy) != (0, 0))
            && !m.hen
  {
  }

  // ---------------------------------------------------------------- permutations and observations

  ghost predicate Meets(a: seq<Lineage>, o: Observation)
  {
    |a| == QUBITS && 0 <= o.piece < QUBITS && o.allowed.Has(FormOf(a[o.piece]))
  }

  /** To require an animal is to give the piece its lineage, to eliminate it is to give it another; a Hen is never
      the unpromoted form of a piece. */
  lemma RequireAndEliminate(a: seq<Lineage>, p: int, x: Lineage)
    ensures Meets(a, Observation(p, Bit(FormOf(x)))) <==> |a| == 4 && 0 <= p < 4 && a[p] == x
    ensures Meets(a, Observation(p, AllBut(FormOf(x)))) <==> |a| == 4 && 0 <= p < 4 && a[p] != x
    ensures !Meets(a, Observation(p, Bit(Hen)))
    ensures Meets(a, Observation(p, AllBut(Hen))) <==> |a| == 4 && 0 <= p < 4
    ensures FormOf(x) == (if x == ChickLine then Chick else if x == GiraffeLine then Giraffe
                          else if x == ElephantLine then Elephant else Lion)
  {
    assert x.ChickLine? || x.GiraffeLine? || x.ElephantLine? || x.LionLine?;
    if |a| == 4 && 0 <= p < 4 {
      assert a[p].ChickLine? || a[p].GiraffeLine? || a[p].ElephantLine? || a[p].LionLine?;
    }
  }

  ghost predicate MeetsAll(a: seq<Lineage>, seen: seq<Observation>)
  {
    Distinct(a) && forall o :: o in seen ==> Meets(a, o)
  }

  ghost predicate Consistent(seen: seq<Observation>)
  {
    exists a :: MeetsAll(a, seen)
  }

  predicate Admitted(masks: seq<Mask>, a: seq<Lineage>) {
    && |masks| == |a| == QUBITS
    && masks[0].Has(FormOf(a[0])) && masks[1].Has(FormOf(a[1]))
    && masks[2].Has(FormOf(a[2])) && masks[3].Has(FormOf(a[3]))
  }

  /** Some permutation that meets the observations gives the piece this lineage. */
  ghost predicate Witnessed(seen: seq<Observation>, p: int, x: Lineage)
  {
    0 <= p < QUBITS && exists a :: MeetsAll(a, seen) && a[p] == x
  }

  ghost predicate AdmitsExactly(masks: seq<Mask>, seen: seq<Observation>)
  {
    forall a :: Distinct(a) ==> (Admitted(masks, a) <==> MeetsAll(a, seen))
  }

  ghost predicate ProjectsExactly(masks: seq<Mask>, seen: seq<Observation>)
  {
    && |masks| == QUBITS && (forall p :: 0 <= p < QUBITS ==> !masks[p].hen)
    && forall p, x :: 0 <= p < QUBITS ==> (masks[p].Has(FormOf(x)) <==> Witnessed(seen, p, x))
  }

  /** The masks admit exactly the permutations that meet the observations, and no form without a witness. */
  ghost predicate Exact(masks: seq<Mask>, seen: seq<Observation>)
  {
    AdmitsExactly(masks, seen) && ProjectsExactly(masks, seen)
  }

  ghost function Matching(seen: seq<Observation>, n: nat, p: int, a: Animal): nat
    requires n <= |PERMUTATIONS| && 0 <= p < QUBITS
  {
    if n == 0 then 0
    else Matching(seen, n - 1, p, a) +
         if MeetsAll(PERMUTATIONS[n - 1], seen) && FormOf(PERMUTATIONS[n - 1][p]) == a then 1 else 0
  }

  ghost function Total(seen: seq<Observation>, n: nat): nat
    requires n <= |PERMUTATIONS|
  {
    if n == 0 then 0 else Total(seen, n - 1) + if MeetsAll(PERMUTATIONS[n - 1], seen) then 1 else 0
  }

  /** The first n permutations that meet the observations, and those of them that give the piece the animal. */
  ghost function MetBelow(seen: seq<Observation>, n: nat): set<seq<Lineage>>
    requires n <= |PERMUTATIONS|
  {
    set k | 0 <= k < n && MeetsAll(PERMUTATIONS[k], seen) :: PERMUTATIONS[k]
  }

  ghost function MatchedBelow(seen: seq<Observation>, n: nat, p: int, a: Animal): set<seq<Lineage>>
    requires 0 <= p < QUBITS && n <= |PERMUTATIONS|
  {
    set b | b in MetBelow(seen, n) && |b| == QUBITS && FormOf(b[p]) == a
  }

  lemma LengthOfListed(n: nat)
    requires n < |PERMUTATIONS|
    ensures |PERMUTATIONS[n]| == QUBITS
  {
    hide PERMUTATIONS;
    PermutationsAreDistinct();
  }

  lemma MetMember(seen: seq<Observation>, n: nat, b: seq<Lineage>)
    requires n < |PERMUTATIONS|
    ensures b in MetBelow(seen, n + 1) <==>
              b in MetBelow(seen, n) || (MeetsAll(PERMUTATIONS[n], seen) && b == PERMUTATIONS[n])
  {
    hide PERMUTATIONS, MeetsAll;
  }

  lemma NotMetBefore(seen: seq<Observation>, n: nat)
    requires n < |PERMUTATIONS|
    ensures PERMUTATIONS[n] !in MetBelow(seen, n)
  {
    hide PERMUTATIONS, MeetsAll;
    PermutationsAreDistinct();
    forall k | 0 <= k < n
      ensures PERMUTATIONS[k] != PERMUTATIONS[n]
    {
      PermutationsDiffer(k, n);
    }
  }

  lemma SetGrows<T>(before: set<T>, after: set<T>, x: T, added: bool)
    requires x !in before && forall y :: y in after <==> y in before || (added && y == x)
    ensures |after| == |before| + if added then 1 else 0
  {
    assert after == before + if added then {x} else {};
  }

  lemma OneMorePermutationMet(seen: seq<Observation>, n: nat, p: int, a: Animal)
    requires n < |PERMUTATIONS| && 0 <= p < QUBITS
    ensures |PERMUTATIONS[n]| == QUBITS
    ensures var met := MeetsAll(PERMUTATIONS[n], seen);
            && |MetBelow(seen, n + 1)| == |MetBelow(seen, n)| + (if met then 1 else 0)
            && |MatchedBelow(seen, n + 1, p, a)| ==
                 |MatchedBelow(seen, n, p, a)| + (if met && FormOf(PERMUTATIONS[n][p]) == a then 1 else 0)
  {
    hide PERMUTATIONS, MeetsAll, FormOf, MetBelow;
    LengthOfListed(n);
    NotMetBefore(seen, n);
    var here, met := PERMUTATIONS[n], MeetsAll(PERMUTATIONS[n], seen);
    forall b
      ensures b in MetBelow(seen, n + 1) <==> b in MetBelow(seen, n) || (met && b == here)
    {
      MetMember(seen, n, b);
    }
    SetGrows(MetBelow(seen, n), MetBelow(seen, n + 1), here, met);
    SetGrows(MatchedBelow(seen, n, p, a), MatchedBelow(seen, n + 1, p, a), here, met && FormOf(here[p]) == a);
  }

  lemma {:induction false} CountsBelow(seen: seq<Observation>, n: nat, p: int, a: Animal)
    requires n <= |PERMUTATIONS| && 0 <= p < QUBITS
    ensures Total(seen, n) == |MetBelow(seen, n)| && Matching(seen, n, p, a) == |MatchedBelow(seen, n, p, a)|
  {
    hide MetBelow, MatchedBelow, MeetsAll, FormOf;
    if n > 0 {
      CountsBelow(seen, n - 1, p, a);
      OneMorePermutationMet(seen, n - 1, p, a);
    } else {
      NoneMet(seen, p, a);
    }
  }

  lemma NoneMet(seen: seq<Observation>, p: int, a: Animal)
    requires 0 <= p < QUBITS
    ensures MetBelow(seen, 0) == {} && MatchedBelow(seen, 0, p, a) == {}
  {
  }

  /** The two counts are the sizes of the sets of assignments left: all of them, and those that give the piece
      the animal. */
  lemma CountsAreSizes(seen: seq<Observation>, p: int, a: Animal, all: set<seq<Lineage>>, some: set<seq<Lineage>>)
    requires 0 <= p < QUBITS && forall b :: b in all <==> MeetsAll(b, seen)
    requires forall b :: b in some <==> MeetsAll(b, seen) && FormOf(b[p]) == a
    ensures Total(seen, PERMUTATION_COUNT) == |all| && Matching(seen, PERMUTATION_COUNT, p, a) == |some|
  {
    PermutationsAreDistinct();
    CountsBelow(seen, PERMUTATION_COUNT, p, a);
    hide PERMUTATIONS, FormOf, Total, Matching;
    forall b
      ensures b in MetBelow(seen, PERMUTATION_COUNT) <==> MeetsAll(b, seen)
    {
      if MeetsAll(b, seen) {
        var k := EveryPermutationIsListed(b);
      }
    }
    assert all == MetBelow(seen, PERMUTATION_COUNT);
    assert some == MatchedBelow(seen, PERMUTATION_COUNT, p, a);
  }

  // ---------------------------------------------------------------- narrowing

  ghost predicate Supported(candidates: seq<Mask>, n: nat, p: int, x: Lineage)
    requires |candidates| == QUBITS && n <= |PERMUTATIONS| && 0 <= p < QUBITS
  {
    exists k :: 0 <= k < n && Admitted(candidates, PERMUTATIONS[k]) && PERMUTATIONS[k][p] == x
  }

  lemma SupportedStep(candidates: seq<Mask>, n: nat, p: int, x: Lineage)
    requires |candidates| == QUBITS && n < |PERMUTATIONS| && 0 <= p < QUBITS
    ensures Supported(candidates, n + 1, p, x) <==>
              Supported(candidates, n, p, x) || (Admitted(candidates, PERMUTATIONS[n]) && PERMUTATIONS[n][p] == x)
  {
    hide Admitted;
  }

  lemma OneMoreMet(a: seq<Lineage>, seen: seq<Observation>, o: Observation)
    ensures MeetsAll(a, seen + [o]) <==> MeetsAll(a, seen) && Meets(a, o)
  {
    hide Meets;
    assert o in seen + [o];
  }

  lemma CutAdmits(masks: seq<Mask>, o: Observation, a: seq<Lineage>)
    requires |masks| == |a| == QUBITS && 0 <= o.piece < QUBITS
    ensures Admitted(masks[o.piece := masks[o.piece].Meet(o.allowed)], a) <==> Admitted(masks, a) && Meets(a, o)
  {
    hide FormOf;
    MeetHas(masks[o.piece], o.allowed, FormOf(a[o.piece]));
  }

  lemma MeetHas(m: Mask, allowed: Mask, a: Animal)
    ensures m.Meet(allowed).Has(a) <==> m.Has(a) && allowed.Has(a)
  {
  }

  /** Meeting one more observation is fitting the masks with one of them cut down. */
  lemma CutMasksAdmit(masks: seq<Mask>, seen: seq<Observation>, o: Observation)
    requires |masks| == QUBITS && AdmitsExactly(masks, seen) && 0 <= o.piece < QUBITS
    ensures AdmitsExactly(masks[o.piece := masks[o.piece].Meet(o.allowed)], seen + [o])
  {
    hide Admitted, MeetsAll, Meets;
    var cut := masks[o.piece := masks[o.piece].Meet(o.allowed)];
    forall a | Distinct(a)
      ensures Admitted(cut, a) <==> MeetsAll(a, seen + [o])
    {
      OneMoreMet(a, seen, o);
      CutAdmits(masks, o, a);
    }
  }

  /** The support over all permutations is exact for the observations the candidates stand for. */
  lemma SupportIsExact(candidates: seq<Mask>, masks: seq<Mask>, seen: seq<Observation>)
    requires |candidates| == |masks| == QUBITS && (forall p :: 0 <= p < QUBITS ==> !masks[p].hen)
    requires AdmitsExactly(candidates, seen)
    requires forall p, x :: 0 <= p < QUBITS ==>
               (masks[p].Has(FormOf(x)) <==> Supported(candidates, PERMUTATION_COUNT, p, x))
    ensures Exact(masks, seen)
  {
    hide Supported, Witnessed, Admitted, MeetsAll, FormOf;
    forall p, x | 0 <= p < QUBITS
      ensures masks[p].Has(FormOf(x)) <==> Witnessed(seen, p, x)
    {
      SupportIsProjection(candidates, seen, p, x);
    }
    forall a | Distinct(a)
      ensures Admitted(masks, a) <==> MeetsAll(a, seen)
    {
      SupportAdmits(candidates, masks, seen, a);
    }
  }

  lemma SupportIsProjection(candidates: seq<Mask>, seen: seq<Observation>, p: int, x: Lineage)
    requires |candidates| == QUBITS && 0 <= p < QUBITS && AdmitsExactly(candidates, seen)
    ensures Supported(candidates, PERMUTATION_COUNT, p, x) <==> Witnessed(seen, p, x)
  {
    hide Admitted, FormOf, Meets;
    PermutationsAreDistinct();
    if a :| MeetsAll(a, seen) && a[p] == x {
      var k := EveryPermutationIsListed(a);
    }
  }

  lemma AdmittedEach(masks: seq<Mask>, a: seq<Lineage>)
    requires |masks| == |a| == QUBITS
    ensures Admitted(masks, a) <==> forall p :: 0 <= p < QUBITS ==> masks[p].Has(FormOf(a[p]))
  {
    hide FormOf;
  }

  lemma SupportAdmits(candidates: seq<Mask>, masks: seq<Mask>, seen: seq<Observation>, a: seq<Lineage>)
    requires |candidates| == |masks| == QUBITS && Distinct(a) && AdmitsExactly(candidates, seen)
    requires forall p, x :: 0 <= p < QUBITS ==>
               (masks[p].Has(FormOf(x)) <==> Supported(candidates, PERMUTATION_COUNT, p, x))
    ensures Admitted(masks, a) <==> MeetsAll(a, seen)
  {
    hide Supported, MeetsAll, Admitted, FormOf, Witnessed;
    AdmittedEach(masks, a);
    AdmittedEach(candidates, a);
    if MeetsAll(a, seen) {
      forall p | 0 <= p < QUBITS
        ensures masks[p].Has(FormOf(a[p]))
      {
        OwnWitness(a, seen, p);
        SupportIsProjection(candidates, seen, p, a[p]);
      }
    }
    if Admitted(masks, a) {
      forall p | 0 <= p < QUBITS
        ensures candidates[p].Has(FormOf(a[p]))
      {
        SupportIsCandidate(candidates, p, a[p]);
      }
    }
  }

  lemma OwnWitness(a: seq<Lineage>, seen: seq<Observation>, p: int)
    requires MeetsAll(a, seen) && 0 <= p < QUBITS
    ensures |a| == QUBITS && Witnessed(seen, p, a[p])
  {
  }

  lemma SupportIsCandidate(candidates: seq<Mask>, p: int, x: Lineage)
    requires |candidates| == QUBITS && 0 <= p < QUBITS && Supported(candidates, PERMUTATION_COUNT, p, x)
    ensures candidates[p].Has(FormOf(x))
  {
    hide FormOf, Admitted;
    var k :| 0 <= k < PERMUTATION_COUNT && Admitted(candidates, PERMUTATIONS[k]) && PERMUTATIONS[k][p] == x;
    PermutationsAreDistinct();
    AdmittedEach(candidates, PERMUTATIONS[k]);
  }

  // ---------------------------------------------------------------- order does not matter

  /** Exact masks depend on what was observed, not on when or how often. */
  lemma MasksDetermined(masks: seq<Mask>, seen: seq<Observation>, masks': seq<Mask>, seen': seq<Observation>)
    requires Exact(masks, seen) && Exact(masks', seen') && (forall o :: o in seen <==> o in seen')
    ensures masks == masks'
    ensures forall p, a :: 0 <= p < QUBITS ==>
              Matching(seen, PERMUTATION_COUNT, p, a) == Matching(seen', PERMUTATION_COUNT, p, a)
    ensures Total(seen, PERMUTATION_COUNT) == Total(seen', PERMUTATION_COUNT)
  {
    hide MeetsAll, AdmitsExactly, FormOf, Matching, Total, Witnessed;
    forall a
      ensures MeetsAll(a, seen) <==> MeetsAll(a, seen')
    {
      SameMet(a, seen, seen');
    }
    forall p | 0 <= p < QUBITS
      ensures masks[p] == masks'[p]
    {
      forall x
        ensures masks[p].Has(FormOf(x)) <==> masks'[p].Has(FormOf(x))
      {
        SameWitnesses(seen, seen', p, x);
      }
      SameMask(masks[p], masks'[p]);
    }
    forall p, a | 0 <= p < QUBITS
      ensures Matching(seen, PERMUTATION_COUNT, p, a) == Matching(seen', PERMUTATION_COUNT, p, a)
    {
      SameCounts(seen, seen', PERMUTATION_COUNT, p, a);
    }
    SameCounts(seen, seen', PERMUTATION_COUNT, 0, Chick);
  }

  lemma SameMet(a: seq<Lineage>, seen: seq<Observation>, seen': seq<Observation>)
    requires forall o :: o in seen <==> o in seen'
    ensures MeetsAll(a, seen) <==> MeetsAll(a, seen')
  {
    hide Meets;
  }

  lemma SameWitnesses(seen: seq<Observation>, seen': seq<Observation>, p: int, x: Lineage)
    requires 0 <= p < QUBITS && forall a :: MeetsAll(a, seen) <==> MeetsAll(a, seen')
    ensures Witnessed(seen, p, x) <==> Witnessed(seen', p, x)
  {
    hide Meets;
  }

  lemma SameMask(m: Mask, m': Mask)
    requires !m.hen && !m'.hen && forall x :: m.Has(FormOf(x)) <==> m'.Has(FormOf(x))
    ensures m == m'
  {
    assert m.Has(FormOf(ChickLine)) <==> m'.Has(FormOf(ChickLine));
    assert m.Has(FormOf(GiraffeLine)) <==> m'.Has(FormOf(GiraffeLine));
    assert m.Has(FormOf(ElephantLine)) <==> m'.Has(FormOf(ElephantLine));
    assert m.Has(FormOf(LionLine)) <==> m'.Has(FormOf(LionLine));
  }

  lemma {:induction false} SameCounts(seen: seq<Observation>, seen': seq<Observation>, n: nat, p: int, a: Animal)
    requires n <= |PERMUTATIONS| && 0 <= p < QUBITS && (forall b :: MeetsAll(b, seen) <==> MeetsAll(b, seen'))
    ensures Matching(seen, n, p, a) == Matching(seen', n, p, a) && Total(seen, n) == Total(seen', n)
  {
    hide MeetsAll, FormOf;
    if n > 0 {
      SameCounts(seen, seen', n - 1, p, a);
    }
  }

  /** Observations that can hold together are accepted in any order: no prefix contradicts. */
  lemma AnyOrderIsAccepted(seen: seq<Observation>, order: seq<Observation>, k: int)
    requires Consistent(seen) && (forall o :: o in order ==> o in seen) && 0 <= k <= |order|
    ensures Consistent(order[..k])
  {
    hide Meets;
    var a :| MeetsAll(a, seen);
    assert MeetsAll(a, order[..k]);
  }

  // ---------------------------------------------------------------- the object

  class QuantumState {
    var masks: seq<Mask>
    /** The observations accepted so far. */
    ghost var seen: seq<Observation>

    ghost predicate Valid()
      reads this
    {
      Exact(masks, seen) && Consistent(seen)
    }

    constructor ()
      ensures Valid() && seen == []
    {
      masks := seq(QUBITS, _ => ALL_ANIMALS);
      seen := [];
      new;
      hide Exact, Consistent;
      FreshIsExact();
    }

    /** None stands for the out-of-range error. */
    method Possible(piece: int) returns (r: Option<Mask>)
      requires Valid()
      ensures r.Some? <==> 0 <= piece < QUBITS
      ensures r.Some? ==> !r.value.hen && forall x :: r.value.Has(FormOf(x)) <==> Witnessed(seen, piece, x)
    {
      hide Witnessed, AdmitsExactly, Consistent, FormOf;
      r := if 0 <= piece < QUBITS then Some(masks[piece]) else None;
    }

    /** Every permutation the masks admit, in the order of the list. */
    method Assignments() returns (r: seq<seq<Lineage>>)
      requires Valid()
      ensures forall a :: a in r <==> MeetsAll(a, seen)
      ensures |r| == Total(seen, |PERMUTATIONS|)
    {
      hide MeetsAll, Consistent, ProjectsExactly, Admitted;
      r := [];
      PermutationsAreDistinct();
      for k := 0 to |PERMUTATIONS|
        invariant forall a :: a in r <==> exists j :: 0 <= j < k && PERMUTATIONS[j] == a && MeetsAll(a, seen)
        invariant |r| == Total(seen, k)
      {
        assert Admitted(masks, PERMUTATIONS[k]) <==> MeetsAll(PERMUTATIONS[k], seen);
        if Admitted(masks, PERMUTATIONS[k]) {
          r := r + [PERMUTATIONS[k]];
        }
      }
      forall a | MeetsAll(a, seen)
        ensures a in r
      {
        AcceptedIsDistinct(a, seen);
        var k := EveryPermutationIsListed(a);
      }
    }

    /** Cuts the masks down to what whole permutations support; refuses if there are none. */
    method Normalize(candidates: seq<Mask>) returns (ok: bool, supported: seq<Mask>)
      requires |candidates| == QUBITS
      ensures ok <==> exists k :: 0 <= k < |PERMUTATIONS| && Admitted(candidates, PERMUTATIONS[k])
      ensures |supported| == QUBITS && forall p :: 0 <= p < QUBITS ==> !supported[p].hen
      ensures forall p, x :: 0 <= p < QUBITS ==>
                (supported[p].Has(FormOf(x)) <==> Supported(candidates, PERMUTATION_COUNT, p, x))
    {
      hide Admitted;
      ok, supported := false, seq(QUBITS, _ => NO_FORMS);
      PermutationsAreDistinct();
      for k := 0 to |PERMUTATIONS|
        invariant |supported| == QUBITS && forall p :: 0 <= p < QUBITS ==> !supported[p].hen
        invariant ok <==> exists j :: 0 <= j < k && Admitted(candidates, PERMUTATIONS[j])
        invariant forall p, x :: 0 <= p < QUBITS ==> (supported[p].Has(FormOf(x)) <==> Supported(candidates, k, p, x))
      {
        ghost var before := supported;
        if Admitted(candidates, PERMUTATIONS[k]) {
          ok := true;
          supported := AddForms(supported, PERMUTATIONS[k]);
        }
        forall p, x | 0 <= p < QUBITS
          ensures supported[p].Has(FormOf(x)) <==> Supported(candidates, k + 1, p, x)
        {
          SupportedStep(candidates, k, p, x);
          assert before[p].Has(FormOf(x)) <==> Supported(candidates, k, p, x);
        }
      }
    }

    method AddForms(supported: seq<Mask>, perm: seq<Lineage>) returns (r: seq<Mask>)
      requires |supported| == |perm| == QUBITS && forall p :: 0 <= p < QUBITS ==> !supported[p].hen
      ensures |r| == QUBITS && forall p :: 0 <= p < QUBITS ==> !r[p].hen
      ensures forall p, x :: 0 <= p < QUBITS ==> (r[p].Has(FormOf(x)) <==> supported[p].Has(FormOf(x)) || perm[p] == x)
    {
      r := supported;
      for p := 0 to QUBITS
        invariant |r| == QUBITS && forall q :: 0 <= q < QUBITS ==> !r[q].hen
        invariant forall q :: p <= q < QUBITS ==> r[q] == supported[q]
        invariant forall q, x :: 0 <= q < p ==> (r[q].Has(FormOf(x)) <==> supported[q].Has(FormOf(x)) || perm[q] == x)
      {
        r := r[p := match perm[p]
                    case ChickLine => r[p].(chick := true)
                    case GiraffeLine => r[p].(giraffe := true)
                    case ElephantLine => r[p].(elephant := true)
                    case LionLine => r[p].(lion := true)];
      }
    }

    /** One observation: accepted exactly when it can hold together with all earlier ones, and otherwise
        without any effect. */
    method Constrain(piece: int, allowed: Mask) returns (outcome: Outcome)
      requires Valid()
      modifies this
      ensures Valid()
      ensures outcome == OutOfRange <==> !(0 <= piece < QUBITS)
      ensures outcome == Accepted <==> 0 <= piece < QUBITS && Consistent(old(seen) + [Observation(piece, allowed)])
      ensures outcome == Accepted ==> seen == old(seen) + [Observation(piece, allowed)]
      ensures outcome != Accepted ==> masks == old(masks) && seen == old(seen)
      ensures outcome != Unmeasurable
    {
      hide Admitted, Consistent, AdmitsExactly, Supported, Witnessed, FormOf;
      if !(0 <= piece < QUBITS) {
        return OutOfRange;
      }
      var previous := masks;
      ghost var o := Observation(piece, allowed);
      masks := masks[piece := masks[piece].Meet(allowed)];
      var ok, supported := Normalize(masks);
      CutStandsFor(previous, seen, o, masks);
      if !ok {
        masks := previous;
        return Contradiction;
      }
      SupportIsExact(masks, supported, seen + [o]);
      masks := supported;
      seen := seen + [o];
      outcome := Accepted;
    }

    method ObserveMove(piece: int, dx: int, dy: int, side: Side) returns (outcome: Outcome)
      requires Valid()
      modifies this
      ensures Valid()
      ensures outcome == Accepted <==>
                0 <= piece < QUBITS && Consistent(old(seen) + [Observation(piece, AnimalsForMove(dx, dy, side))])
      ensures outcome == Accepted ==> seen == old(seen) + [Observation(piece, AnimalsForMove(dx, dy, side))]
      ensures outcome != Accepted ==> masks == old(masks) && seen == old(seen)
      ensures outcome == OutOfRange <==> !AnimalsForMove(dx, dy, side).IsEmpty() && !(0 <= piece < QUBITS)
      ensures outcome != Unmeasurable
    {
      hide Exact, Consistent;
      var movers := AnimalsForMove(dx, dy, side);
      if movers.IsEmpty() {
        NothingAllowed(seen, piece, movers);
        return Contradiction;
      }
      outcome := Constrain(piece, movers);
    }

    method Require(piece: int, animal: Animal) returns (outcome: Outcome)
      requires Valid()
      modifies this
      ensures Valid()
      ensures outcome == Accepted <==> 0 <= piece < QUBITS && Consistent(old(seen) + [Observation(piece, Bit(animal))])
      ensures outcome == Accepted ==> seen == old(seen) + [Observation(piece, Bit(animal))]
      ensures outcome != Accepted ==> masks == old(masks) && seen == old(seen)
      ensures outcome == OutOfRange <==> !(0 <= piece < QUBITS)
      ensures outcome != Unmeasurable
    {
      hide Exact, Consistent;
      outcome := Constrain(piece, Bit(animal));
    }

    method Eliminate(piece: int, animal: Animal) returns (outcome: Outcome)
      requires Valid()
      modifies this
      ensures Valid()
      ensures outcome == Accepted <==>
                0 <= piece < QUBITS && Consistent(old(seen) + [Observation(piece, AllBut(animal))])
      ensures outcome == Accepted ==> seen == old(seen) + [Observation(piece, AllBut(animal))]
      ensures outcome != Accepted ==> masks == old(masks) && seen == old(seen)
      ensures outcome == OutOfRange <==> !(0 <= piece < QUBITS)
      ensures outcome != Unmeasurable
    {
      hide Exact, Consistent;
      outcome := Constrain(piece, AllBut(animal));
    }

    /** A capture may measure anything but a Lion. */
    method MeasureCapture(piece: int, animal: Animal) returns (outcome: Outcome)
      requires Valid()
      modifies this
      ensures Valid()
      ensures outcome == Unmeasurable <==> animal == Lion
      ensures outcome == Accepted <==>
                animal != Lion && 0 <= piece < QUBITS && Consistent(old(seen) + [Observation(piece, Bit(animal))])
      ensures outcome == Accepted ==> seen == old(seen) + [Observation(piece, Bit(animal))]
      ensures outcome != Accepted ==> masks == old(masks) && seen == old(seen)
      ensures outcome == OutOfRange <==> animal != Lion && !(0 <= piece < QUBITS)
    {
      hide Exact, Consistent;
      if animal == Lion {
        return Unmeasurable;
      }
      outcome := Constrain(piece, Bit(animal));
    }

    /** The share of the remaining permutations that give the piece the animal. */
    method ProbabilityOf(piece: int, animal: Animal) returns (r: Option<Probability>)
      requires Valid()
      ensures r.Some? <==> 0 <= piece < QUBITS
      ensures r.Some? ==> r.value.matching == Matching(seen, |PERMUTATIONS|, piece, animal)
      ensures r.Some? ==> r.value.total == Total(seen, |PERMUTATIONS|) && r.value.matching <= r.value.total
    {
      hide MeetsAll, Consistent, FormOf, ProjectsExactly, Admitted;
      if !(0 <= piece < QUBITS) {
        return None;
      }
      PermutationsAreDistinct();
      var matching, total := 0, 0;
      for k := 0 to |PERMUTATIONS|
        invariant matching == Matching(seen, k, piece, animal) && total == Total(seen, k) && matching <= total
      {
        assert Admitted(masks, PERMUTATIONS[k]) <==> MeetsAll(PERMUTATIONS[k], seen);
        if Admitted(masks, PERMUTATIONS[k]) {
          total := total + 1;
          if FormOf(PERMUTATIONS[k][piece]) == animal {
            matching := matching + 1;
          }
        }
      }
      r := Some(Probability(matching, total));
    }
  }

  lemma AcceptedIsDistinct(a: seq<Lineage>, seen: seq<Observation>)
    requires MeetsAll(a, seen)
    ensures Distinct(a)
  {
  }

  /** Without observations every permutation is open, and every animal for every piece. */
  lemma FreshIsExact()
    ensures Exact(seq(QUBITS, _ => ALL_ANIMALS), []) && Consistent([])
  {
    hide PERMUTATIONS;
    var masks := seq(QUBITS, _ => ALL_ANIMALS);
    forall p, x | 0 <= p < QUBITS
      ensures masks[p].Has(FormOf(x)) && Witnessed([], p, x)
    {
      var a := SomePermutationWith(p, x);
      assert MeetsAll(a, []);
    }
    var a := SomePermutationWith(0, ChickLine);
    assert MeetsAll(a, []);
  }

  lemma SomePermutationWith(p: int, x: Lineage) returns (a: seq<Lineage>)
    requires 0 <= p < QUBITS
    ensures Distinct(a) && a[p] == x
  {
    var forms := [ChickLine, GiraffeLine, ElephantLine, LionLine];
    var shift := Rank(x) - p + 4;
    a := [forms[shift % 4], forms[(shift + 1) % 4], forms[(shift + 2) % 4], forms[(shift + 3) % 4]];
  }

  lemma CutStandsFor(masks: seq<Mask>, seen: seq<Observation>, o: Observation, cut: seq<Mask>)
    requires Exact(masks, seen) && 0 <= o.piece < QUBITS
    requires |masks| == QUBITS ==> cut == masks[o.piece := masks[o.piece].Meet(o.allowed)]
    ensures AdmitsExactly(cut, seen + [o])
    ensures Consistent(seen + [o]) <==> exists k :: 0 <= k < |PERMUTATIONS| && Admitted(cut, PERMUTATIONS[k])
  {
    hide Admitted, MeetsAll, Witnessed;
    CutMasksAdmit(masks, seen, o);
    PermutationsAreDistinct();
    if a :| MeetsAll(a, seen + [o]) {
      AcceptedIsDistinct(a, seen + [o]);
      var k := EveryPermutationIsListed(a);
    }
  }

  lemma NothingAllowed(seen: seq<Observation>, piece: int, allowed: Mask)
    requires allowed.IsEmpty()
    ensures !Consistent(seen + [Observation(piece, allowed)])
  {
    var o := Observation(piece, allowed);
    assert o in seen + [o];
    assert forall a :: !Meets(a, o);
  }
}
