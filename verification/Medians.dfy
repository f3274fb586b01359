/**
 * The lower-middle median of internal/fuel/engine.go, computed by sorting a copy,
 * and what makes it robust: its rank, and its indifference to a minority of outliers.
 */
module Medians {

  ghost predicate Ascending(s: seq<real>) {
    forall i, j :: 0 <= i < j < |s| ==> s[i] <= s[j]
  }

  function Insert(x: real, s: seq<real>): (r: seq<real>)
    requires Ascending(s)
    ensures Ascending(r) && multiset(r) == multiset(s) + multiset{x}
  {
    if s == [] || x <= s[0] then
      [x] + s
    else
      assert s == [s[0]] + s[1..];
      var rest := Insert(x, s[1..]);
      assert AtLeast(rest, s[0]) by { InsertAtLeast(x, s[1..], rest, s[0]); }
      [s[0]] + rest
  }

  ghost predicate AtLeast(s: seq<real>, y: real) {
    forall i :: 0 <= i < |s| ==> y <= s[i]
  }

  lemma InsertAtLeast(x: real, s: seq<real>, r: seq<real>, y: real)
    requires AtLeast(s, y) && y <= x && multiset(r) == multiset(s) + multiset{x}
    ensures AtLeast(r, y)
  {
    forall i | 0 <= i < |r| ensures y <= r[i] {
      assert r[i] in multiset(r);
      assert r[i] in multiset(s) || r[i] == x;
    }
  }

  function Sorted(s: seq<real>): (r: seq<real>)
    ensures Ascending(r) && multiset(r) == multiset(s) && |r| == |s|
  {
    if s == [] then [] else
      assert s == [s[0]] + s[1..];
      var r := Insert(s[0], Sorted(s[1..]));
      assert |multiset(r)| == |multiset(s)|;
      r
  }

  function Median(w: seq<real>): (m: real)
    requires w != []
    ensures m in w
  {
    var m := Sorted(w)[(|w| - 1) / 2];
    assert m in multiset(Sorted(w));
    m
  }

  // ---------------------------------------------------------------- ranks

  /** How many readings lie strictly below y. */
  function Below(s: seq<real>, y: real): nat {
    if s == [] then 0 else (if s[0] < y then 1 else 0) + Below(s[1..], y)
  }

  /** How many readings lie strictly above y. */
  function Above(s: seq<real>, y: real): nat {
    if s == [] then 0 else (if s[0] > y then 1 else 0) + Above(s[1..], y)
  }

  /** How many readings lie outside the band [lo, hi]. */
  function Outside(s: seq<real>, lo: real, hi: real): nat {
    if s == [] then 0 else (if s[0] < lo || s[0] > hi then 1 else 0) + Outside(s[1..], lo, hi)
  }

  lemma {:induction false} InsertRank(x: real, s: seq<real>, y: real)
    requires Ascending(s)
    ensures Below(Insert(x, s), y) == Below(s, y) + if x < y then 1 else 0
    ensures Above(Insert(x, s), y) == Above(s, y) + if x > y then 1 else 0
  {
    var r := Insert(x, s);
    if s == [] || x <= s[0] {
      assert r[1..] == s;
    } else {
      InsertRank(x, s[1..], y);
      assert r[1..] == Insert(x, s[1..]);
    }
  }

  lemma {:induction false} SortedRank(s: seq<real>, y: real)
    ensures Below(Sorted(s), y) == Below(s, y)
    ensures Above(Sorted(s), y) == Above(s, y)
  {
    if s != [] {
      SortedRank(s[1..], y);
      InsertRank(s[0], Sorted(s[1..]), y);
    }
  }

  /** In ascending order everything up to position k is below y as soon as position k is. */
  lemma {:induction false} RankFromBelow(s: seq<real>, k: nat, y: real)
    requires Ascending(s) && k < |s|
    ensures s[k] < y ==> Below(s, y) >= k + 1
    ensures s[k] >= y ==> Below(s, y) <= k
    decreases |s|
  {
    if k == 0 {
      if s[0] >= y { NoneBelow(s, y); }
    } else {
      RankFromBelow(s[1..], k - 1, y);
    }
  }

  lemma {:induction false} NoneBelow(s: seq<real>, y: real)
    requires forall i :: 0 <= i < |s| ==> s[i] >= y
    ensures Below(s, y) == 0
  {
    if s != [] { NoneBelow(s[1..], y); }
  }

  lemma {:induction false} RankFromAbove(s: seq<real>, k: nat, y: real)
    requires Ascending(s) && k < |s|
    ensures s[k] > y ==> Above(s, y) >= |s| - k
    ensures s[k] <= y ==> Above(s, y) <= |s| - 1 - k
    decreases |s|
  {
    AboveAtMost(s, y);
    if k == 0 {
      if s[0] > y { AllAbove(s, y); } else { AboveAtMost(s[1..], y); }
    } else {
      RankFromAbove(s[1..], k - 1, y);
    }
  }

  lemma {:induction false} AllAbove(s: seq<real>, y: real)
    requires forall i :: 0 <= i < |s| ==> s[i] > y
    ensures Above(s, y) == |s|
  {
    if s != [] { AllAbove(s[1..], y); }
  }

  lemma {:induction false} AboveAtMost(s: seq<real>, y: real)
    ensures Above(s, y) <= |s|
  {
    if s != [] { AboveAtMost(s[1..], y); }
  }

  lemma {:induction false} OutsideCounts(s: seq<real>, lo: real, hi: real)
    ensures Below(s, lo) <= Outside(s, lo, hi)
    ensures Above(s, hi) <= Outside(s, lo, hi)
  {
    if s != [] { OutsideCounts(s[1..], lo, hi); }
  }

  // ---------------------------------------------------------------- what the median is

  /** m is the lower-middle reading: few enough below it, few enough above it. */
  ghost predicate IsLowerMedian(w: seq<real>, m: real) {
    && m in w
    && Below(w, m) <= (|w| - 1) / 2
    && Above(w, m) <= |w| - 1 - (|w| - 1) / 2
  }

  /** The rank conditions pin the median down completely, with no reference to sorting. */
  lemma MedianIsTheLowerMedian(w: seq<real>, m: real)
    requires w != []
    ensures IsLowerMedian(w, m) <==> m == Median(w)
  {
    var k := (|w| - 1) / 2;
    var s := Sorted(w);
    SortedRank(w, m);
    RankFromBelow(s, k, m);
    RankFromAbove(s, k, m);
  }

  /** A strict minority of readings outside a band cannot move the median out of it. */
  lemma MinorityCannotMoveMedian(w: seq<real>, lo: real, hi: real)
    requires w != [] && 2 * Outside(w, lo, hi) < |w|
    ensures lo <= Median(w) <= hi
  {
    var k := (|w| - 1) / 2;
    var s := Sorted(w);
    SortedRank(w, lo);
    SortedRank(w, hi);
    OutsideCounts(w, lo, hi);
    RankFromBelow(s, k, lo);
    RankFromAbove(s, k, hi);
  }
}
