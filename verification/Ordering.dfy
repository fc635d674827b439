/** Stable ordering of scored moves, best score first. */
module Ordering {
  import opened States

  datatype Scored = Scored(score: int, move: Move)

  ghost predicate Descending(s: seq<Scored>)
  {
    forall i, j :: 0 <= i < j < |s| ==> s[i].score >= s[j].score
  }

  /** Inserts after every element that scores at least as much, so equal scores keep their order. */
  function InsertStable(s: seq<Scored>, x: Scored): seq<Scored> {
    if s == [] then [x]
    else if s[|s| - 1].score >= x.score then s + [x]
    else InsertStable(s[..|s| - 1], x) + [s[|s| - 1]]
  }

  lemma {:induction false} InsertKeepsElements(s: seq<Scored>, x: Scored)
    ensures multiset(InsertStable(s, x)) == multiset(s) + multiset{x}
    ensures |InsertStable(s, x)| == |s| + 1
  {
    if s != [] && s[|s| - 1].score < x.score {
      InsertKeepsElements(s[..|s| - 1], x);
      assert s == s[..|s| - 1] + [s[|s| - 1]];
    }
  }

  lemma {:induction false} InsertBelow(s: seq<Scored>, x: Scored, low: int)
    requires x.score >= low && forall k :: 0 <= k < |s| ==> s[k].score >= low
    ensures forall k :: 0 <= k < |InsertStable(s, x)| ==> InsertStable(s, x)[k].score >= low
  {
    if s != [] && s[|s| - 1].score < x.score {
      InsertBelow(s[..|s| - 1], x, low);
    }
  }

  lemma {:induction false} InsertDescends(s: seq<Scored>, x: Scored)
    requires Descending(s)
    ensures Descending(InsertStable(s, x))
  {
    if s != [] && s[|s| - 1].score < x.score {
      InsertDescends(s[..|s| - 1], x);
      InsertBelow(s[..|s| - 1], x, s[|s| - 1].score);
    }
  }

  /** The elements of one score, in order. */
  ghost function WithScore(s: seq<Scored>, score: int): seq<Scored> {
    if s == [] then []
    else WithScore(s[..|s| - 1], score) + (if s[|s| - 1].score == score then [s[|s| - 1]] else [])
  }

  /** Same elements, best score first, equal scores in their old order. */
  ghost predicate IsStableSort(s: seq<Scored>, r: seq<Scored>)
  {
    multiset(r) == multiset(s) && Descending(r) && forall k :: WithScore(r, k) == WithScore(s, k)
  }

  lemma {:induction false} InsertIsStable(s: seq<Scored>, x: Scored, score: int)
    requires Descending(s)
    ensures WithScore(InsertStable(s, x), score) == WithScore(s + [x], score)
  {
    var n := |s| - 1;
    assert (s + [x])[..|s|] == s;
    if s != [] && s[n].score < x.score {
      var inner := InsertStable(s[..n], x);
      assert (inner + [s[n]])[..|inner|] == inner;
      InsertIsStable(s[..n], x, score);
      assert (s[..n] + [x])[..n] == s[..n];
    } else {
      assert InsertStable(s, x) == s + [x];
    }
  }

  method StableSort(s: seq<Scored>) returns (r: seq<Scored>)
    ensures IsStableSort(s, r) && |r| == |s|
  {
    r := [];
    for i := 0 to |s|
      invariant IsStableSort(s[..i], r) && |r| == i
    {
      InsertKeepsElements(r, s[i]);
      InsertDescends(r, s[i]);
      forall k
        ensures WithScore(InsertStable(r, s[i]), k) == WithScore(s[..i + 1], k)
      {
        InsertIsStable(r, s[i], k);
        assert (r + [s[i]])[..|r|] == r && s[..i + 1][..i] == s[..i];
      }
      assert s[..i + 1] == s[..i] + [s[i]];
      r := InsertStable(r, s[i]);
    }
    assert s[..|s|] == s;
  }

  function MovesOf(s: seq<Scored>): (r: seq<Move>)
    ensures |r| == |s|
  {
    seq(|s|, i requires 0 <= i < |s| => s[i].move)
  }

  lemma {:induction false} SameMovesOf(a: seq<Scored>, b: seq<Scored>)
    requires multiset(a) == multiset(b)
    ensures multiset(MovesOf(a)) == multiset(MovesOf(b))
  {
    assert |a| == |multiset(a)| == |multiset(b)| == |b|;
    if a != [] {
      var n := |a| - 1;
      var j := RemoveScored(a, b);
      SameMovesOf(a[..n], b[..j] + b[j + 1..]);
      assert MovesOf(a) == MovesOf(a[..n]) + [a[n].move];
      assert MovesOf(b) == MovesOf(b)[..j] + [b[j].move] + MovesOf(b)[j + 1..];
      assert MovesOf(b[..j] + b[j + 1..]) == MovesOf(b)[..j] + MovesOf(b)[j + 1..];
    }
  }

  lemma RemoveScored(a: seq<Scored>, b: seq<Scored>) returns (j: int)
    requires multiset(a) == multiset(b) && a != []
    ensures 0 <= j < |b| && b[j] == a[|a| - 1]
    ensures multiset(a[..|a| - 1]) == multiset(b[..j] + b[j + 1..])
  {
    var n := |a| - 1;
    assert a == a[..n] + [a[n]];
    assert a[n] in multiset(b);
    j :| 0 <= j < |b| && b[j] == a[n];
    assert b == b[..j] + [b[j]] + b[j + 1..];
    assert multiset(a[..n]) == multiset(a) - multiset{a[n]} == multiset(b[..j] + b[j + 1..]);
  }
}
