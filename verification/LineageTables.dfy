/** The 24 lineage permutations, the support they give a tuple of four lineage sets, and the lookup
    table that stores that support for every packed tuple.
 */
module LineageTables {
  import opened Animals

  const LINEAGE_COUNT := 4
  const TABLE_SIZE := 65536
  const PERMUTATION_COUNT := 24

  /** Every ordering of the four lineages, in the order of repeated next_permutation. */
  const PERMUTATIONS: seq<seq<Lineage>> := [
    [ChickLine, GiraffeLine, ElephantLine, LionLine], [ChickLine, GiraffeLine, LionLine, ElephantLine],
    [ChickLine, ElephantLine, GiraffeLine, LionLine], [ChickLine, ElephantLine, LionLine, GiraffeLine],
    [ChickLine, LionLine, GiraffeLine, ElephantLine], [ChickLine, LionLine, ElephantLine, GiraffeLine],
    [GiraffeLine, ChickLine, ElephantLine, LionLine], [GiraffeLine, ChickLine, LionLine, ElephantLine],
    [GiraffeLine, ElephantLine, ChickLine, LionLine], [GiraffeLine, ElephantLine, LionLine, ChickLine],
    [GiraffeLine, LionLine, ChickLine, ElephantLine], [GiraffeLine, LionLine, ElephantLine, ChickLine],
    [ElephantLine, ChickLine, GiraffeLine, LionLine], [ElephantLine, ChickLine, LionLine, GiraffeLine],
    [ElephantLine, GiraffeLine, ChickLine, LionLine], [ElephantLine, GiraffeLine, LionLine, ChickLine],
    [ElephantLine, LionLine, ChickLine, GiraffeLine], [ElephantLine, LionLine, GiraffeLine, ChickLine],
    [LionLine, ChickLine, GiraffeLine, ElephantLine], [LionLine, ChickLine, ElephantLine, GiraffeLine],
    [LionLine, GiraffeLine, ChickLine, ElephantLine], [LionLine, GiraffeLine, ElephantLine, ChickLine],
    [LionLine, ElephantLine, ChickLine, GiraffeLine], [LionLine, ElephantLine, GiraffeLine, ChickLine]]

  ghost predicate Distinct(perm: seq<Lineage>)
  {
    |perm| == LINEAGE_COUNT && forall i, j :: 0 <= i < j < LINEAGE_COUNT ==> perm[i] != perm[j]
  }

  lemma PermutationsAreDistinct()
    ensures |PERMUTATIONS| == PERMUTATION_COUNT
    ensures forall k :: 0 <= k < |PERMUTATIONS| ==> Distinct(PERMUTATIONS[k])
  {
    forall k | 0 <= k < |PERMUTATIONS|
      ensures Distinct(PERMUTATIONS[k])
    {
    }
  }

  /** Where a permutation stands in the list, from its first, second and third entries. */
  function PermutationIndex(x: Lineage, y: Lineage, z: Lineage): int {
    var second := Rank(y) - if Rank(x) < Rank(y) then 1 else 0;
    var third := Rank(z) - (if Rank(x) < Rank(z) then 1 else 0) - (if Rank(y) < Rank(z) then 1 else 0);
    6 * Rank(x) + 2 * second + third
  }

  /** The list misses no permutation. */
  lemma EveryPermutationIsListed(perm: seq<Lineage>) returns (k: int)
    requires Distinct(perm)
    ensures 0 <= k < |PERMUTATIONS| && PERMUTATIONS[k] == perm
  {
    k := PermutationIndex(perm[0], perm[1], perm[2]);
    assert perm == [perm[0], perm[1], perm[2], perm[3]];
    assert perm[0] != perm[1] && perm[0] != perm[2] && perm[0] != perm[3]
        && perm[1] != perm[2] && perm[1] != perm[3] && perm[2] != perm[3];
    match perm[0]
    case ChickLine => match perm[1] { case ChickLine => case GiraffeLine => case ElephantLine => case LionLine => }
    case GiraffeLine => match perm[1] { case ChickLine => case GiraffeLine => case ElephantLine => case LionLine => }
    case ElephantLine => match perm[1] { case ChickLine => case GiraffeLine => case ElephantLine => case LionLine => }
    case LionLine => match perm[1] { case ChickLine => case GiraffeLine => case ElephantLine => case LionLine => }
  }

  /** The list repeats no permutation. */
  lemma PermutationsDiffer(j: int, k: int)
    requires 0 <= j < PERMUTATION_COUNT && 0 <= k < PERMUTATION_COUNT && j != k
    ensures PERMUTATIONS[j] != PERMUTATIONS[k]
  {
    IndexOfListed(j);
    IndexOfListed(k);
    hide PERMUTATIONS, PermutationIndex;
  }

  lemma IndexOfListed(k: int)
    requires 0 <= k < PERMUTATION_COUNT
    ensures |PERMUTATIONS| == PERMUTATION_COUNT && |PERMUTATIONS[k]| == LINEAGE_COUNT
    ensures PermutationIndex(PERMUTATIONS[k][0], PERMUTATIONS[k][1], PERMUTATIONS[k][2]) == k
  {
  }

  // ---------------------------------------------------------------- entries

  datatype Entry = Entry(supported: seq<Lineages>, valid: bool)

  ghost predicate Admits(lineages: seq<Lineages>, perm: seq<Lineage>)
  {
    |lineages| == |perm| == LINEAGE_COUNT && forall i :: 0 <= i < LINEAGE_COUNT ==> lineages[i].Has(perm[i])
  }

  /** The entry after only the first n permutations have been tried. */
  ghost predicate IsPartialEntry(lineages: seq<Lineages>, n: int, e: Entry)
  {
    && 0 <= n <= |PERMUTATIONS|
    && |e.supported| == LINEAGE_COUNT
    && (e.valid <==> AdmittedBelow(lineages, n))
    && (forall i, x :: 0 <= i < LINEAGE_COUNT ==> (e.supported[i].Has(x) <==> SupportedBelow(lineages, n, i, x)))
  }

  ghost predicate IsEntry(lineages: seq<Lineages>, e: Entry)
  {
    IsPartialEntry(lineages, |PERMUTATIONS|, e)
  }

  lemma NoPermutationTried(lineages: seq<Lineages>)
    ensures IsPartialEntry(lineages, 0, Entry(seq(LINEAGE_COUNT, _ => NO_LINEAGES), false))
  {
  }

  ghost predicate SupportedBelow(lineages: seq<Lineages>, n: int, i: int, x: Lineage)
    requires 0 <= n <= |PERMUTATIONS| && 0 <= i < LINEAGE_COUNT
  {
    exists k :: 0 <= k < n && Admits(lineages, PERMUTATIONS[k]) && PERMUTATIONS[k][i] == x
  }

  ghost predicate AdmittedBelow(lineages: seq<Lineages>, n: int)
    requires 0 <= n <= |PERMUTATIONS|
  {
    exists k :: 0 <= k < n && Admits(lineages, PERMUTATIONS[k])
  }

  lemma BelowGrows(lineages: seq<Lineages>, n: int, i: int, x: Lineage)
    requires 0 <= n < |PERMUTATIONS| && 0 <= i < LINEAGE_COUNT && |PERMUTATIONS[n]| == LINEAGE_COUNT
    ensures AdmittedBelow(lineages, n + 1) <==> AdmittedBelow(lineages, n) || Admits(lineages, PERMUTATIONS[n])
    ensures SupportedBelow(lineages, n + 1, i, x) <==>
              SupportedBelow(lineages, n, i, x) || (Admits(lineages, PERMUTATIONS[n]) && PERMUTATIONS[n][i] == x)
  {
    hide PERMUTATIONS;
  }

  /** Trying one more permutation, which joins the entry exactly when the tuple admits it. */
  lemma OneMorePermutation(lineages: seq<Lineages>, n: int, e: Entry, e': Entry)
    requires IsPartialEntry(lineages, n, e) && n < |PERMUTATIONS|
    requires Distinct(PERMUTATIONS[n])
    requires !Admits(lineages, PERMUTATIONS[n]) ==> e' == e
    requires Admits(lineages, PERMUTATIONS[n]) ==> e'.valid && |e'.supported| == LINEAGE_COUNT
    requires Admits(lineages, PERMUTATIONS[n]) ==> forall i, x :: 0 <= i < LINEAGE_COUNT ==>
               (e'.supported[i].Has(x) <==> e.supported[i].Has(x) || PERMUTATIONS[n][i] == x)
    ensures IsPartialEntry(lineages, n + 1, e')
  {
    hide PERMUTATIONS, Admits, AdmittedBelow, SupportedBelow;
    BelowGrows(lineages, n, 0, ChickLine);
    forall i, x | 0 <= i < LINEAGE_COUNT
      ensures e'.supported[i].Has(x) <==> SupportedBelow(lineages, n + 1, i, x)
    {
      BelowGrows(lineages, n, i, x);
      assert e.supported[i].Has(x) <==> SupportedBelow(lineages, n, i, x);
    }
  }

  method AddPermutation(supported: seq<Lineages>, perm: seq<Lineage>) returns (r: seq<Lineages>)
    requires |supported| == |perm| == LINEAGE_COUNT
    ensures |r| == LINEAGE_COUNT
    ensures forall i, x :: 0 <= i < LINEAGE_COUNT ==> (r[i].Has(x) <==> supported[i].Has(x) || perm[i] == x)
  {
    r := supported;
    for index := 0 to LINEAGE_COUNT
      invariant |r| == LINEAGE_COUNT
      invariant forall i :: index <= i < LINEAGE_COUNT ==> r[i] == supported[i]
      invariant forall i :: 0 <= i < index ==> r[i] == supported[i].With(perm[i])
    {
      r := r[index := r[index].With(perm[index])];
    }
  }

  method BuildLineageEntry(lineages: seq<Lineages>) returns (e: Entry)
    requires |lineages| == LINEAGE_COUNT
    ensures IsEntry(lineages, e)
  {
    PermutationsAreDistinct();
    NoPermutationTried(lineages);
    e := Entry(seq(LINEAGE_COUNT, _ => NO_LINEAGES), false);
    hide IsPartialEntry;
    var k := 0;
    while k < |PERMUTATIONS|
      invariant 0 <= k <= |PERMUTATIONS| && |e.supported| == LINEAGE_COUNT
      invariant IsPartialEntry(lineages, k, e)
    {
      ghost var before := e;
      var permutation := PERMUTATIONS[k];
      var valid := true;
      var index := 0;
      while index < LINEAGE_COUNT
        invariant 0 <= index <= LINEAGE_COUNT
        invariant valid ==> forall i :: 0 <= i < index ==> lineages[i].Has(permutation[i])
        invariant !valid ==> !Admits(lineages, permutation)
      {
        if !lineages[index].Has(permutation[index]) {
          valid := false;
          break;
        }
        index := index + 1;
      }
      assert valid <==> Admits(lineages, permutation);
      if valid {
        var supported := AddPermutation(e.supported, permutation);
        e := Entry(supported, true);
      }
      OneMorePermutation(lineages, k, before, e);
      k := k + 1;
    }
  }

  // ---------------------------------------------------------------- packed keys

  function Nibble(ls: Lineages): int {
    (if ls.ch then 1 else 0) + (if ls.g then 2 else 0) + (if ls.e then 4 else 0) + (if ls.l then 8 else 0)
  }

  function FromNibble(n: int): Lineages {
    Lineages(n % 2 == 1, n / 2 % 2 == 1, n / 4 % 2 == 1, n / 8 % 2 == 1)
  }

  /** The nibble at an index of a key: shift right by four bits an index, then mask. */
  function NibbleAt(key: int, index: int): int
    requires 0 <= index < LINEAGE_COUNT
  {
    key / (if index == 0 then 1 else if index == 1 then 16 else if index == 2 then 256 else 4096) % 16
  }

  function KeyOf(lineages: seq<Lineages>): int
    requires |lineages| == LINEAGE_COUNT
  {
    Nibble(lineages[0]) + 16 * Nibble(lineages[1]) + 256 * Nibble(lineages[2]) + 4096 * Nibble(lineages[3])
  }

  function Unpack(key: int): (r: seq<Lineages>)
    ensures |r| == LINEAGE_COUNT
  {
    seq(LINEAGE_COUNT, i requires 0 <= i < LINEAGE_COUNT => FromNibble(NibbleAt(key, i)))
  }

  lemma NibbleRoundTrip(ls: Lineages, n: int)
    requires 0 <= n < 16
    ensures 0 <= Nibble(ls) < 16 && FromNibble(Nibble(ls)) == ls
    ensures Nibble(FromNibble(n)) == n
  {
  }

  lemma NibblesOfSum(a: int, b: int, c: int, d: int)
    requires 0 <= a < 16 && 0 <= b < 16 && 0 <= c < 16 && 0 <= d < 16
    ensures var key := a + 16 * b + 256 * c + 4096 * d;
            NibbleAt(key, 0) == a && NibbleAt(key, 1) == b && NibbleAt(key, 2) == c && NibbleAt(key, 3) == d
  {
    var key := a + 16 * b + 256 * c + 4096 * d;
    assert key / 16 == b + 16 * c + 256 * d;
    assert key / 256 == c + 16 * d;
    assert key / 4096 == d;
  }

  lemma SumOfNibbles(key: int)
    requires 0 <= key < TABLE_SIZE
    ensures key == NibbleAt(key, 0) + 16 * NibbleAt(key, 1) + 256 * NibbleAt(key, 2) + 4096 * NibbleAt(key, 3)
    ensures forall i :: 0 <= i < LINEAGE_COUNT ==> 0 <= NibbleAt(key, i) < 16
  {
    var q1, q2, q3 := key / 16, key / 256, key / 4096;
    assert q2 == q1 / 16 && q3 == q2 / 16;
  }

  lemma UnpackInvertsKey(lineages: seq<Lineages>)
    requires |lineages| == LINEAGE_COUNT
    ensures 0 <= KeyOf(lineages) < TABLE_SIZE
    ensures Unpack(KeyOf(lineages)) == lineages
  {
    hide NibbleAt, Nibble, FromNibble;
    forall i | 0 <= i < LINEAGE_COUNT
      ensures 0 <= Nibble(lineages[i]) < 16 && FromNibble(Nibble(lineages[i])) == lineages[i]
    {
      NibbleRoundTrip(lineages[i], 0);
    }
    NibblesOfSum(Nibble(lineages[0]), Nibble(lineages[1]), Nibble(lineages[2]), Nibble(lineages[3]));
  }

  lemma KeyInvertsUnpack(key: int)
    requires 0 <= key < TABLE_SIZE
    ensures KeyOf(Unpack(key)) == key
  {
    hide NibbleAt, Nibble, FromNibble;
    SumOfNibbles(key);
    forall i | 0 <= i < LINEAGE_COUNT
      ensures Nibble(Unpack(key)[i]) == NibbleAt(key, i)
    {
      NibbleRoundTrip(NO_LINEAGES, NibbleAt(key, i));
    }
  }

  /** Packs four lineage sets, one nibble at a time. The nibbles do not overlap, so adding a shifted
      nibble is or-ing it. */
  method LineageKey(lineages: seq<Lineages>) returns (key: int)
    requires |lineages| == LINEAGE_COUNT
    ensures 0 <= key < TABLE_SIZE && Unpack(key) == lineages
  {
    key := 0;
    var shift := 1;
    for index := 0 to LINEAGE_COUNT
      invariant shift == if index == 0 then 1 else if index == 1 then 16 else if index == 2 then 256
                         else if index == 3 then 4096 else 65536
      invariant key == (if index > 0 then Nibble(lineages[0]) else 0)
                     + (if index > 1 then 16 * Nibble(lineages[1]) else 0)
                     + (if index > 2 then 256 * Nibble(lineages[2]) else 0)
                     + (if index > 3 then 4096 * Nibble(lineages[3]) else 0)
    {
      key := key + Nibble(lineages[index]) * shift;
      shift := shift * 16;
    }
    UnpackInvertsKey(lineages);
  }

  ghost predicate IsLineageTable(table: seq<Entry>)
  {
    |table| == TABLE_SIZE && forall key :: 0 <= key < TABLE_SIZE ==> IsEntry(Unpack(key), table[key])
  }

  method BuildLineageTable() returns (table: seq<Entry>)
    ensures IsLineageTable(table)
  {
    var entries := new Entry[TABLE_SIZE](_ => Entry([], false));
    for key := 0 to TABLE_SIZE
      invariant forall k :: 0 <= k < key ==> IsEntry(Unpack(k), entries[k])
    {
      var lineages := Unpack(key);
      entries[key] := BuildLineageEntry(lineages);
    }
    table := entries[..];
  }
}
