/**
 * pandas' `Series.quantile(0.75)` with its default linear interpolation: sort
 * the values, take position h = 0.75 * (n - 1) and interpolate between the
 * values at floor(h) and floor(h) + 1.
 */
module Quantile {
  import opened Sorting

  function Id(x: real): real { x }

  function Ascending(s: seq<real>): (t: seq<real>)
    ensures |t| == |s| && multiset(t) == multiset(s)
    ensures forall i, j :: 0 <= i < j < |t| ==> t[i] <= t[j]
  {
    SortBy(s, Id)
  }

  /** floor(0.75 * (n - 1)), exactly. */
  function LowerRank(n: nat): (lo: nat)
    requires n > 0
    ensures lo < n
  {
    3 * (n - 1) / 4
  }

  /** The fractional part of 0.75 * (n - 1), in quarters: the fraction is r / 4. */
  function RankQuarters(n: nat): (r: nat)
    requires n > 0
    ensures r < 4
  {
    3 * (n - 1) % 4
  }

  /**
   * Linear interpolation a + (r / 4) * (b - a), written case by case so that
   * it stays linear arithmetic.
   */
  function Interpolate(a: real, b: real, r: nat): (v: real)
    requires r < 4
    ensures a <= b ==> a <= v <= b
    ensures r == 0 ==> v == a
  {
    if r == 0 then a
    else if r == 1 then (3.0 * a + b) / 4.0
    else if r == 2 then (a + b) / 2.0
    else (a + 3.0 * b) / 4.0
  }

  /** The 75th percentile lies between the smallest and the largest value. */
  function Quantile75(s: seq<real>): (q: real)
    requires |s| > 0
    ensures Ascending(s)[0] <= q <= Ascending(s)[|s| - 1]
  {
    var t := Ascending(s);
    var lo := LowerRank(|s|);
    assert t[0] <= t[lo] && t[lo] <= t[|t| - 1];
    if lo + 1 < |t| then
      assert t[lo] <= t[lo + 1] <= t[|t| - 1];
      Interpolate(t[lo], t[lo + 1], RankQuarters(|s|))
    else t[lo]
  }

  /** How many values are at most `c`. */
  function CountAtMost(s: seq<real>, c: real): (k: nat)
    ensures k <= |s|
  {
    if s == [] then 0 else (if s[0] <= c then 1 else 0) + CountAtMost(s[1..], c)
  }

  /** How many values are strictly above `c`. */
  function CountAbove(s: seq<real>, c: real): (k: nat)
    ensures k <= |s|
  {
    if s == [] then 0 else (if s[0] > c then 1 else 0) + CountAbove(s[1..], c)
  }

  lemma {:induction false} AboveIsComplement(s: seq<real>, c: real)
    ensures CountAbove(s, c) == |s| - CountAtMost(s, c)
    decreases |s|
  {
    if s != [] {
      AboveIsComplement(s[1..], c);
    }
  }

  lemma {:induction false} CountAtMostInsert(x: real, t: seq<real>, c: real)
    requires SortedBy(t, Id)
    ensures CountAtMost(Insert(x, t, Id), c) == (if x <= c then 1 else 0) + CountAtMost(t, c)
    decreases |t|
  {
    if t == [] {
      assert Insert(x, t, Id) == [x];
    } else if x <= t[0] {
      var r := [x] + t;
      assert Insert(x, t, Id) == r;
      assert r[0] == x && r[1..] == t;
    } else {
      var rest := Insert(x, t[1..], Id);
      var r := [t[0]] + rest;
      assert Insert(x, t, Id) == r;
      assert r[0] == t[0] && r[1..] == rest;
      CountAtMostInsert(x, t[1..], c);
    }
  }

  /** Sorting does not change how many values lie at or below a threshold. */
  lemma {:induction false} CountAtMostSorted(s: seq<real>, c: real)
    ensures CountAtMost(Ascending(s), c) == CountAtMost(s, c)
    decreases |s|
  {
    if s != [] {
      CountAtMostSorted(s[1..], c);
      CountAtMostInsert(s[0], SortBy(s[1..], Id), c);
    }
  }

  /** Replacing one value changes the count by exactly what the two values contribute. */
  lemma {:induction false} CountAtMostUpdate(s: seq<real>, i: nat, v: real, c: real)
    requires i < |s|
    ensures CountAtMost(s[i := v], c)
            == CountAtMost(s, c) - (if s[i] <= c then 1 else 0) + (if v <= c then 1 else 0)
    decreases |s|
  {
    if i > 0 {
      assert s[i := v][1..] == s[1..][i - 1 := v];
      CountAtMostUpdate(s[1..], i - 1, v, c);
    } else {
      assert s[i := v][1..] == s[1..];
    }
  }

  lemma {:induction false} NoneAtMostBelowFirst(t: seq<real>, c: real)
    requires forall i, j :: 0 <= i < j < |t| ==> t[i] <= t[j]
    requires t != [] && t[0] > c
    ensures CountAtMost(t, c) == 0
    decreases |t|
  {
    if |t| > 1 {
      NoneAtMostBelowFirst(t[1..], c);
    }
  }

  /** In an ascending sequence, the j-th value is at most c iff more than j values are. */
  lemma {:induction false} OrderStatistic(t: seq<real>, j: nat, c: real)
    requires forall a, b :: 0 <= a < b < |t| ==> t[a] <= t[b]
    requires j < |t|
    ensures t[j] <= c <==> CountAtMost(t, c) > j
    decreases |t|
  {
    if t[0] > c {
      NoneAtMostBelowFirst(t, c);
    } else if j > 0 {
      OrderStatistic(t[1..], j - 1, c);
    }
  }

  /** The j-th smallest value is at most c iff more than j of the values are. */
  lemma RankOfSorted(s: seq<real>, j: nat, c: real)
    requires j < |s|
    ensures Ascending(s)[j] <= c <==> CountAtMost(s, c) > j
  {
    CountAtMostSorted(s, c);
    OrderStatistic(Ascending(s), j, c);
  }

  /** The interpolated quantile lies between the two order statistics it interpolates. */
  lemma QuantileBetween(s: seq<real>)
    requires |s| > 0
    ensures Ascending(s)[LowerRank(|s|)] <= Quantile75(s)
    ensures LowerRank(|s|) + 1 < |s| ==> Quantile75(s) <= Ascending(s)[LowerRank(|s|) + 1]
  {
    var lo := LowerRank(|s|);
    if lo + 1 < |s| {
      assert Ascending(s)[lo] <= Ascending(s)[lo + 1];
    }
  }

  /** If every value is `v`, the 0.75 quantile is `v`. */
  lemma QuantileOfConstant(s: seq<real>, v: real)
    requires |s| > 0
    requires forall i :: 0 <= i < |s| ==> s[i] == v
    ensures Quantile75(s) == v
  {
    var t := Ascending(s);
    forall j | 0 <= j < |t| ensures t[j] == v {
      assert t[j] in multiset(t);
      assert t[j] in multiset(s);
    }
  }

  /** At most n - 1 - floor(0.75 * (n - 1)) values lie strictly above the 0.75 quantile. */
  lemma AboveQuantileBound(s: seq<real>)
    requires |s| > 0
    ensures CountAbove(s, Quantile75(s)) <= |s| - 1 - LowerRank(|s|)
  {
    var q := Quantile75(s);
    QuantileBetween(s);
    RankOfSorted(s, LowerRank(|s|), q);
    AboveIsComplement(s, q);
  }

  /** Raising one value that exceeds the lower order statistic leaves that statistic in place. */
  lemma LowerStays(s: seq<real>, i: nat, v: real)
    requires i < |s| && v >= s[i] && Ascending(s)[LowerRank(|s|)] < s[i]
    ensures Ascending(s[i := v])[LowerRank(|s|)] == Ascending(s)[LowerRank(|s|)]
  {
    var s' := s[i := v];
    var lo := LowerRank(|s|);
    var low := Ascending(s)[lo];
    RankOfSorted(s, lo, low);
    CountAtMostUpdate(s, i, v, low);
    RankOfSorted(s', lo, low);
    var c := Ascending(s')[lo];
    RankOfSorted(s', lo, c);
    CountAtMostUpdate(s, i, v, c);
    RankOfSorted(s, lo, c);
  }

  /** Raising one value to `v` keeps every order statistic at most max(its old value, v). */
  lemma StatisticBelowMax(s: seq<real>, i: nat, v: real, j: nat)
    requires i < |s| && j < |s| && v >= s[i]
    ensures Ascending(s[i := v])[j] <= if Ascending(s)[j] >= v then Ascending(s)[j] else v
  {
    var m := if Ascending(s)[j] >= v then Ascending(s)[j] else v;
    RankOfSorted(s, j, m);
    CountAtMostUpdate(s, i, v, m);
    RankOfSorted(s[i := v], j, m);
  }

  /**
   * Raising a value that lies strictly above the 0.75 quantile, the others
   * unchanged, keeps it strictly above the quantile of the new values.
   */
  lemma RaisingKeepsAbove(s: seq<real>, i: nat, v: real)
    requires i < |s| && s[i] > Quantile75(s) && v >= s[i]
    ensures v > Quantile75(s[i := v])
  {
    QuantileBetween(s);
    LowerStays(s, i, v);
    if LowerRank(|s|) + 1 < |s| {
      RaisingKeepsAboveInterpolated(s, i, v);
    } else {
      SingleQuantile(s);
      SingleQuantile(s[i := v]);
    }
  }

  lemma RaisingKeepsAboveInterpolated(s: seq<real>, i: nat, v: real)
    requires i < |s| && s[i] > Quantile75(s) && v >= s[i]
    requires LowerRank(|s|) + 1 < |s|
    requires Ascending(s[i := v])[LowerRank(|s|)] == Ascending(s)[LowerRank(|s|)] < s[i]
    ensures v > Quantile75(s[i := v])
  {
    var s' := s[i := v];
    assert |s'| == |s|;
    var lo, r := LowerRank(|s|), RankQuarters(|s|);
    assert r < 4;
    var low, upper, upper' := Ascending(s)[lo], Ascending(s)[lo + 1], Ascending(s')[lo + 1];
    StatisticBelowMax(s, i, v, lo + 1);
    assert upper' <= if upper >= v then upper else v;
    InterpolatedQuantile(s);
    assert Interpolate(low, upper, r) < s[i];
    InterpolatedQuantile(s');
    assert Quantile75(s') == Interpolate(low, upper', r);
    InterpolationStep(low, upper, upper', s[i], v, r);
  }

  lemma SingleQuantile(s: seq<real>)
    requires |s| > 0 && LowerRank(|s|) + 1 >= |s|
    ensures Quantile75(s) == Ascending(s)[LowerRank(|s|)]
  {
  }

  lemma InterpolatedQuantile(s: seq<real>)
    requires |s| > 0 && LowerRank(|s|) + 1 < |s|
    ensures Quantile75(s)
            == Interpolate(Ascending(s)[LowerRank(|s|)], Ascending(s)[LowerRank(|s|) + 1], RankQuarters(|s|))
  {
  }

  /** The arithmetic behind RaisingKeepsAbove, for one interpolation weight. */
  lemma InterpolationStep(low: real, upper: real, upper': real, x: real, v: real, r: nat)
    requires r < 4 && low < x <= v && Interpolate(low, upper, r) < x
    requires upper' <= if upper >= v then upper else v
    ensures Interpolate(low, upper', r) < v
  {
  }
}
