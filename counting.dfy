/**
 * Counting the rows of a table that satisfy a condition, as pandas'
 * `len(df[df[col] == value])` does: the count is the size of the set of
 * matching positions.
 */
module Counting {

  /** The positions of `s` whose element satisfies `p`. */
  ghost function Where<T>(s: seq<T>, p: T -> bool): set<int> {
    set i | 0 <= i < |s| && p(s[i])
  }

  /** Adding one element at the end adds its position exactly when it matches. */
  lemma WhereSnoc<T>(s: seq<T>, p: T -> bool)
    requires s != []
    ensures |Where(s, p)| == |Where(s[..|s| - 1], p)| + (if p(s[|s| - 1]) then 1 else 0)
  {
    var n := |s| - 1;
    var before := Where(s[..n], p);
    assert forall i :: i in before <==> 0 <= i < n && p(s[i]);
    if p(s[n]) {
      assert Where(s, p) == before + {n};
    } else {
      assert Where(s, p) == before;
    }
  }
}
