/** How large sets are, and the sets of what sequences hold. */
module Sets {
  lemma SubsetSize<T>(a: set<T>, b: set<T>)
    requires a <= b
    ensures |a| <= |b|
    ensures |a| == |b| ==> a == b
  {
    assert |b - a| == |b| - |a|;
  }

  lemma SizesAdd<T>(all: set<T>, page: set<T>, rest: set<T>)
    requires forall e :: e in all <==> e in page || e in rest
    requires forall e :: e in rest ==> e !in page
    ensures |all| == |page| + |rest|
  {
    assert all == page + rest && page !! rest;
  }

  predicate Distinct<T(==)>(s: seq<T>) { forall i, j :: 0 <= i < j < |s| ==> s[i] != s[j] }

  /** A sequence has as many elements as places exactly if none occurs twice. */
  lemma {:induction false} SizeOfElements<T>(s: seq<T>)
    ensures |set x | x in s| <= |s|
    ensures |set x | x in s| == |s| <==> Distinct(s)
  {
    if s == [] {
      assert (set x | x in s) == {};
    } else {
      var n := |s| - 1;
      SizeOfElements(s[..n]);
      var before := set x | x in s[..n];
      assert s == s[..n] + [s[n]];
      assert (set x | x in s) == before + {s[n]};
      if s[n] in before {
        var i :| 0 <= i < n && s[..n][i] == s[n];
        assert s[i] == s[n];
      } else {
        assert forall i :: 0 <= i < n ==> s[i] == s[..n][i] && s[i] in before;
      }
    }
  }
}
