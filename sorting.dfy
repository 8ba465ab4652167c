/**
 * A stable insertion sort by a real-valued key. It stands for Python's
 * `sorted`, for the order pandas uses before interpolating a quantile, and for
 * the `orderBy` of a Spark window.
 */
module Sorting {

  ghost predicate SortedBy<T>(s: seq<T>, key: T -> real) {
    forall i, j :: 0 <= i < j < |s| ==> key(s[i]) <= key(s[j])
  }

  /** Inserts `x` before the first element whose key is not smaller. */
  function Insert<T>(x: T, s: seq<T>, key: T -> real): (r: seq<T>)
    requires SortedBy(s, key)
    ensures |r| == |s| + 1
    ensures multiset(r) == multiset(s) + multiset{x}
    ensures SortedBy(r, key)
  {
    if s == [] then [x]
    else if key(x) <= key(s[0]) then [x] + s
    else
      var rest := Insert(x, s[1..], key);
      assert s == [s[0]] + s[1..];
      AllAbove(x, s, rest, key);
      [s[0]] + rest
  }

  /** Everything in `Insert(x, s[1..])` has a key at least that of `s[0]` when `x` does. */
  lemma AllAbove<T>(x: T, s: seq<T>, rest: seq<T>, key: T -> real)
    requires s != [] && SortedBy(s, key) && key(s[0]) < key(x)
    requires multiset(rest) == multiset(s[1..]) + multiset{x}
    ensures forall j :: 0 <= j < |rest| ==> key(s[0]) <= key(rest[j])
  {
    forall j | 0 <= j < |rest| ensures key(s[0]) <= key(rest[j]) {
      assert rest[j] in multiset(rest);
      if rest[j] != x {
        assert rest[j] in multiset(s[1..]);
        var k :| 0 <= k < |s[1..]| && s[1..][k] == rest[j];
        assert s[k + 1] == rest[j];
      }
    }
  }

  function SortBy<T>(s: seq<T>, key: T -> real): (t: seq<T>)
    ensures |t| == |s|
    ensures multiset(t) == multiset(s)
    ensures SortedBy(t, key)
  {
    if s == [] then []
    else
      assert s == [s[0]] + s[1..];
      Insert(s[0], SortBy(s[1..], key), key)
  }

  /** Two positions holding the same value make its multiplicity at least two. */
  lemma RepeatedTwice<T>(s: seq<T>, a: nat, b: nat)
    requires a < b < |s| && s[a] == s[b]
    ensures multiset(s)[s[a]] >= 2
  {
    assert s == s[..b] + s[b..];
    assert s[a] in multiset(s[..b]);
    assert s[b] in multiset(s[b..]);
    assert multiset(s) == multiset(s[..b]) + multiset(s[b..]);
  }

  ghost predicate Distinct<T>(s: seq<T>) {
    forall i, j :: 0 <= i < j < |s| ==> s[i] != s[j]
  }

  lemma {:induction false} DistinctOnce<T>(s: seq<T>, x: T)
    requires Distinct(s)
    ensures multiset(s)[x] <= 1
    decreases |s|
  {
    if s != [] {
      assert s == [s[0]] + s[1..];
      DistinctOnce(s[1..], x);
      if x == s[0] {
        assert x !in s[1..];
      }
    }
  }

  /** A permutation of a sequence without repetitions has no repetitions. */
  lemma PermutationKeepsDistinct<T>(s: seq<T>, t: seq<T>)
    requires Distinct(s) && multiset(t) == multiset(s)
    ensures Distinct(t)
  {
    forall i, j | 0 <= i < j < |t| ensures t[i] != t[j] {
      if t[i] == t[j] {
        RepeatedTwice(t, i, j);
        DistinctOnce(s, t[i]);
        assert false;
      }
    }
  }

  /** Sorting a sequence of pairwise distinct keys gives strictly increasing keys. */
  lemma SortedDistinctKeysAscend<T>(t: seq<T>, key: T -> real)
    requires SortedBy(t, key)
    requires forall i, j :: 0 <= i < j < |t| ==> key(t[i]) != key(t[j])
    ensures forall i, j :: 0 <= i < j < |t| ==> key(t[i]) < key(t[j])
  {
  }
}
