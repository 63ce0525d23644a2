/** Sizes of finite sets. */
module Sets {
  lemma SubsetSize<T>(a: set<T>, b: set<T>)
    requires a <= b
    ensures |a| <= |b|
  {
    assert b == a + (b - a);
  }

  lemma SubsetSameSize<T>(a: set<T>, b: set<T>)
    requires a <= b && |a| == |b|
    ensures a == b
  {
    assert |b - a| == |b| - |a|;
  }

  predicate Distinct<T(==)>(s: seq<T>)
  {
    forall i, j :: 0 <= i < j < |s| ==> s[i] != s[j]
  }

  /** A list without repetitions has as many members as places. */
  lemma {:induction false} DistinctSize<T>(s: seq<T>)
    requires Distinct(s)
    ensures |set x | x in s| == |s|
  {
    if s != [] {
      var n := |s| - 1;
      DistinctSize(s[..n]);
      assert (set x | x in s) == (set x | x in s[..n]) + {s[n]};
      assert forall i :: 0 <= i < n ==> s[..n][i] != s[n];
    }
  }

  function Below(n: nat): (r: set<nat>)
    ensures |r| == n && forall k: nat :: k in r <==> k < n
  {
    if n == 0 then {} else Below(n - 1) + {n - 1}
  }

  /** n different places out of n are all of them. */
  lemma EveryPlaceTaken(pos: seq<nat>, k: nat)
    requires Distinct(pos) && (forall i :: 0 <= i < |pos| ==> pos[i] < |pos|) && k < |pos|
    ensures k in pos
  {
    var used := set x | x in pos;
    DistinctSize(pos);
    SubsetSameSize(used, Below(|pos|));
    assert k in Below(|pos|);
  }
}
