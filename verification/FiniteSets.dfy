/** Sizes of finite sets: ranges, subsets and images of sequences. */
module FiniteSets {

  /** The n integers from lo on. */
  function Range(lo: int, n: nat): (r: set<int>)
    ensures |r| == n
    ensures forall x :: x in r <==> lo <= x < lo + n
  {
    if n == 0 then {} else Range(lo, n - 1) + {lo + n - 1}
  }

  lemma {:induction false} SubsetSize<T>(small: set<T>, large: set<T>)
    requires small <= large
    ensures |small| <= |large|
  {
    if small != {} {
      var x :| x in small;
      SubsetSize(small - {x}, large - {x});
    }
  }

  /** A sequence has no more values on a set of indices than there are indices, and as many if it takes
      each value once. */
  lemma {:induction false} ImageSize<T>(f: seq<T>, indices: set<int>, image: set<T>)
    requires forall k :: k in indices ==> 0 <= k < |f|
    requires image == set k | k in indices :: f[k]
    ensures |image| <= |indices|
    ensures (forall j, k :: j in indices && k in indices && j != k ==> f[j] != f[k]) ==> |image| == |indices|
  {
    if exists k :: k in indices {
      var k :| k in indices;
      var fewer := set j | j in indices - {k} :: f[j];
      assert image == fewer + {f[k]};
      ImageSize(f, indices - {k}, fewer);
    }
  }
}
