/** Sequences that are rearrangements of each other: a bijection of indices, equal multisets, equal
    sums and equal sorted forms.
 */
module Permuting {

  ghost predicate Rearranges(a: seq<int>, b: seq<int>, to: seq<int>, back: seq<int>)
  {
    && |a| == |b| == |to| == |back|
    && (forall k :: 0 <= k < |a| ==> 0 <= to[k] < |b| && back[to[k]] == k && b[to[k]] == a[k])
    && (forall k :: 0 <= k < |b| ==> 0 <= back[k] < |a| && to[back[k]] == k)
  }

  function Without<T>(s: seq<T>, k: int): seq<T>
    requires 0 <= k < |s|
  {
    s[..k] + s[k + 1..]
  }

  /** The index an element has once the element at j is gone. */
  function Shifted(k: int, j: int): int {
    if k > j then k - 1 else k
  }

  /** The index an element had before the element at j was removed. */
  function Reopened(k: int, j: int): int {
    if k >= j then k + 1 else k
  }

  lemma MultisetWithout(s: seq<int>, k: int)
    requires 0 <= k < |s|
    ensures multiset(s) == multiset(Without(s, k)) + multiset{s[k]}
  {
    assert s == s[..k] + [s[k]] + s[k + 1..];
  }

  lemma WithoutAt(s: seq<int>, j: int, k: int)
    requires 0 <= j < |s| && 0 <= k < |s| - 1
    ensures |Without(s, j)| == |s| - 1 && Without(s, j)[k] == s[Reopened(k, j)]
  {
  }

  /** Dropping one matched pair leaves a rearrangement. */
  lemma DropPair(a: seq<int>, b: seq<int>, to: seq<int>, back: seq<int>, to': seq<int>, back': seq<int>)
    requires Rearranges(a, b, to, back) && a != []
    requires |to'| == |back'| == |a| - 1
    requires forall k :: 0 <= k < |to'| ==> to'[k] == Shifted(to[k], to[|a| - 1])
    requires forall k :: 0 <= k < |back'| ==> back'[k] == back[Reopened(k, to[|a| - 1])]
    ensures Rearranges(a[..|a| - 1], Without(b, to[|a| - 1]), to', back')
  {
    var n := |a| - 1;
    var j := to[n];
    forall k | 0 <= k < n
      ensures 0 <= to'[k] < n && back'[to'[k]] == k && Without(b, j)[to'[k]] == a[k]
    {
      assert back[to[k]] == k && back[j] == n && to[k] != j;
      assert Reopened(to'[k], j) == to[k];
      WithoutAt(b, j, to'[k]);
    }
    forall k | 0 <= k < n
      ensures 0 <= back'[k] < n && to'[back'[k]] == k
    {
      var x := Reopened(k, j);
      assert to[back[x]] == x && x != j && back[x] != n;
    }
  }

  /** An index bijection makes the multisets equal. */
  lemma {:induction false} RearrangedMultisets(a: seq<int>, b: seq<int>, to: seq<int>, back: seq<int>)
    requires Rearranges(a, b, to, back)
    ensures multiset(a) == multiset(b)
  {
    if a == [] {
      assert b == [];
    } else {
      var n := |a| - 1;
      var j := to[n];
      assert 0 <= j < |b| && b[j] == a[n];
      var to' := seq(n, k requires 0 <= k < n => Shifted(to[k], j));
      var back' := seq(n, k requires 0 <= k < n => back[Reopened(k, j)]);
      DropPair(a, b, to, back, to', back');
      hide Rearranges;
      RearrangedMultisets(a[..n], Without(b, j), to', back');
      MultisetWithout(b, j);
      assert a == a[..n] + [a[n]];
    }
  }

  /** Adding one matched pair to a rearrangement gives a rearrangement. */
  lemma AddPair(a: seq<int>, b: seq<int>, j: int, to': seq<int>, back': seq<int>, to: seq<int>, back: seq<int>)
    requires a != [] && |b| == |a| && 0 <= j < |b| && b[j] == a[|a| - 1]
    requires Rearranges(a[..|a| - 1], Without(b, j), to', back')
    requires |to| == |back| == |a|
    requires forall k :: 0 <= k < |a| ==> to[k] == if k == |a| - 1 then j else Reopened(to'[k], j)
    requires forall k :: 0 <= k < |a| ==> back[k] == if k == j then |a| - 1 else back'[Shifted(k, j)]
    ensures Rearranges(a, b, to, back)
  {
    var n := |a| - 1;
    forall k | 0 <= k <= n
      ensures 0 <= to[k] <= n && back[to[k]] == k && b[to[k]] == a[k]
    {
      if k < n {
        assert Shifted(Reopened(to'[k], j), j) == to'[k] && back'[to'[k]] == k;
        WithoutAt(b, j, to'[k]);
      }
    }
    forall k | 0 <= k <= n
      ensures 0 <= back[k] <= n && to[back[k]] == k
    {
      if k != j {
        assert to'[back'[Shifted(k, j)]] == Shifted(k, j) && Reopened(Shifted(k, j), j) == k;
      }
    }
  }

  /** Equal multisets come from some index bijection. */
  lemma {:induction false} MultisetsRearranged(a: seq<int>, b: seq<int>) returns (to: seq<int>, back: seq<int>)
    requires multiset(a) == multiset(b)
    ensures Rearranges(a, b, to, back)
  {
    assert |a| == |multiset(a)| == |multiset(b)| == |b|;
    if a == [] {
      to, back := [], [];
    } else {
      var n := |a| - 1;
      var j := RemoveMatch(a, b);
      var to', back' := MultisetsRearranged(a[..n], Without(b, j));
      to := seq(n + 1, k requires 0 <= k <= n => if k == n then j else Reopened(to'[k], j));
      back := seq(n + 1, k requires 0 <= k <= n => if k == j then n else back'[Shifted(k, j)]);
      AddPair(a, b, j, to', back', to, back);
    }
  }

  /** Where b holds the last element of a; removing both keeps the multisets equal. */
  lemma RemoveMatch(a: seq<int>, b: seq<int>) returns (j: int)
    requires multiset(a) == multiset(b) && a != []
    ensures 0 <= j < |b| && b[j] == a[|a| - 1]
    ensures multiset(a[..|a| - 1]) == multiset(Without(b, j))
  {
    var n := |a| - 1;
    assert a == a[..n] + [a[n]];
    assert a[n] in multiset(b);
    j :| 0 <= j < |b| && b[j] == a[n];
    MultisetWithout(b, j);
    assert multiset(a[..n]) == multiset(a) - multiset{a[n]} == multiset(Without(b, j));
  }

  // ---------------------------------------------------------------- sums

  function Sum(s: seq<int>): int {
    if s == [] then 0 else Sum(s[..|s| - 1]) + s[|s| - 1]
  }

  lemma {:induction false} SumConcat(a: seq<int>, b: seq<int>)
    ensures Sum(a + b) == Sum(a) + Sum(b)
  {
    if b == [] {
      assert a + b == a;
    } else {
      SumConcat(a, b[..|b| - 1]);
      assert (a + b)[..|a + b| - 1] == a + b[..|b| - 1];
    }
  }

  lemma SumWithout(s: seq<int>, k: int)
    requires 0 <= k < |s|
    ensures Sum(s) == Sum(Without(s, k)) + s[k]
  {
    SplitAt(s, k);
    SumSingle(s[k]);
    SumConcat(s[..k] + [s[k]], s[k + 1..]);
    SumConcat(s[..k], [s[k]]);
    SumConcat(s[..k], s[k + 1..]);
    hide Sum;
  }

  lemma SplitAt(s: seq<int>, k: int)
    requires 0 <= k < |s|
    ensures s == (s[..k] + [s[k]]) + s[k + 1..]
  {
  }

  lemma SumSingle(x: int)
    ensures Sum([x]) == x
  {
    assert [x][..0] == [];
  }

  lemma {:induction false} SameMultisetSameSum(a: seq<int>, b: seq<int>)
    requires multiset(a) == multiset(b)
    ensures Sum(a) == Sum(b)
  {
    assert |a| == |multiset(a)| == |multiset(b)| == |b|;
    if a != [] {
      var j := RemoveMatch(a, b);
      SameMultisetSameSum(a[..|a| - 1], Without(b, j));
      SumWithout(b, j);
    }
  }

  // ---------------------------------------------------------------- sorting

  ghost predicate IsSorted(s: seq<int>)
  {
    forall i, j :: 0 <= i < j < |s| ==> s[i] <= s[j]
  }

  /** Inserts before the first larger element of a sorted sequence. */
  function Insert(s: seq<int>, x: int): seq<int> {
    if s == [] then [x]
    else if s[|s| - 1] <= x then s + [x]
    else Insert(s[..|s| - 1], x) + [s[|s| - 1]]
  }

  function SortUp(s: seq<int>): seq<int> {
    if s == [] then [] else Insert(SortUp(s[..|s| - 1]), s[|s| - 1])
  }

  lemma {:induction false} InsertKeeps(s: seq<int>, x: int)
    ensures multiset(Insert(s, x)) == multiset(s) + multiset{x}
    ensures |Insert(s, x)| == |s| + 1
  {
    if s != [] && s[|s| - 1] > x {
      InsertKeeps(s[..|s| - 1], x);
      assert s == s[..|s| - 1] + [s[|s| - 1]];
    }
  }

  lemma {:induction false} InsertBound(s: seq<int>, x: int, top: int)
    requires x <= top && forall k :: 0 <= k < |s| ==> s[k] <= top
    ensures forall k :: 0 <= k < |Insert(s, x)| ==> Insert(s, x)[k] <= top
  {
    if s != [] && s[|s| - 1] > x {
      InsertBound(s[..|s| - 1], x, top);
    }
  }

  lemma {:induction false} InsertSorts(s: seq<int>, x: int)
    requires IsSorted(s)
    ensures IsSorted(Insert(s, x))
  {
    if s != [] && s[|s| - 1] > x {
      InsertSorts(s[..|s| - 1], x);
      InsertBound(s[..|s| - 1], x, s[|s| - 1]);
    }
  }

  lemma {:induction false} SortUpSorts(s: seq<int>)
    ensures IsSorted(SortUp(s)) && multiset(SortUp(s)) == multiset(s) && |SortUp(s)| == |s|
  {
    if s != [] {
      var n := |s| - 1;
      SortUpSorts(s[..n]);
      InsertSorts(SortUp(s[..n]), s[n]);
      InsertKeeps(SortUp(s[..n]), s[n]);
      assert s == s[..n] + [s[n]];
    }
  }

  lemma MultisetDropLast(s: seq<int>)
    requires s != []
    ensures multiset(s[..|s| - 1]) == multiset(s) - multiset{s[|s| - 1]}
  {
    assert s == s[..|s| - 1] + [s[|s| - 1]];
  }

  lemma LastIsLargest(s: seq<int>, x: int)
    requires IsSorted(s) && s != [] && x in multiset(s)
    ensures x <= s[|s| - 1]
  {
    var k :| 0 <= k < |s| && s[k] == x;
  }

  lemma SameLargest(a: seq<int>, b: seq<int>)
    requires IsSorted(a) && IsSorted(b) && multiset(a) == multiset(b) && a != [] && b != []
    ensures a[|a| - 1] == b[|b| - 1]
    ensures multiset(a[..|a| - 1]) == multiset(b[..|b| - 1])
  {
    MultisetDropLast(a);
    MultisetDropLast(b);
    assert a[|a| - 1] in multiset(a) && b[|b| - 1] in multiset(b);
    LastIsLargest(a, b[|b| - 1]);
    LastIsLargest(b, a[|a| - 1]);
  }

  /** A multiset has one sorted form. */
  lemma {:induction false} SortedFormUnique(a: seq<int>, b: seq<int>)
    requires IsSorted(a) && IsSorted(b) && multiset(a) == multiset(b)
    ensures a == b
  {
    assert |a| == |multiset(a)| == |multiset(b)| == |b|;
    if a != [] {
      SameLargest(a, b);
      SortedFormUnique(a[..|a| - 1], b[..|b| - 1]);
      assert a == a[..|a| - 1] + [a[|a| - 1]];
    }
  }

  lemma SortUpCanonical(a: seq<int>, b: seq<int>)
    ensures SortUp(a) == SortUp(b) <==> multiset(a) == multiset(b)
  {
    SortUpSorts(a);
    SortUpSorts(b);
    if multiset(a) == multiset(b) {
      SortedFormUnique(SortUp(a), SortUp(b));
    }
  }
}
