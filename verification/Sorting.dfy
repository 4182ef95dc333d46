/**
 The sort the library calls stand for (`sort.Float64s`, `sort.Strings`, `Array.prototype.sort`): insertion
 by a given order.
 */
module Sorting {

  /** Neighbours are in the order `before`. */
  predicate Chain<T>(before: (T, T) -> bool, s: seq<T>) {
    |s| <= 1 || (before(s[0], s[1]) && Chain(before, s[1..]))
  }

  function InsertBy<T>(before: (T, T) -> bool, x: T, s: seq<T>): (r: seq<T>)
    ensures |r| == |s| + 1
  {
    if s == [] || before(x, s[0]) then [x] + s else [s[0]] + InsertBy(before, x, s[1..])
  }

  function SortBy<T>(before: (T, T) -> bool, s: seq<T>): (r: seq<T>)
    ensures |r| == |s|
  {
    if s == [] then [] else InsertBy(before, s[0], SortBy(before, s[1..]))
  }

  lemma {:induction false} InsertByKeeps<T>(before: (T, T) -> bool, x: T, s: seq<T>)
    requires Chain(before, s) && forall y :: y in s ==> before(x, y) || before(y, x)
    ensures Chain(before, InsertBy(before, x, s))
    ensures multiset(InsertBy(before, x, s)) == multiset(s) + multiset{x}
    ensures InsertBy(before, x, s)[0] == x || (s != [] && InsertBy(before, x, s)[0] == s[0])
  {
    if s != [] {
      assert s == [s[0]] + s[1..];
      if before(x, s[0]) {
        assert ([x] + s)[1..] == s;
      } else {
        InsertByKeeps(before, x, s[1..]);
        var rest := InsertBy(before, x, s[1..]);
        assert ([s[0]] + rest)[1..] == rest;
      }
    }
  }

  predicate Comparable<T>(before: (T, T) -> bool, x: T, y: T) { before(x, y) || before(y, x) }

  /** The result is in order and holds exactly the given values. */
  lemma {:induction false} SortByKeeps<T>(before: (T, T) -> bool, s: seq<T>)
    requires forall i, j :: 0 <= i < j < |s| ==> Comparable(before, s[i], s[j])
    ensures Chain(before, SortBy(before, s)) && multiset(SortBy(before, s)) == multiset(s)
  {
    if s != [] {
      assert s == [s[0]] + s[1..];
      SortByKeeps(before, s[1..]);
      forall y | y in SortBy(before, s[1..]) ensures before(s[0], y) || before(y, s[0]) {
        assert y in multiset(s[1..]);
        var j :| 0 <= j < |s| - 1 && s[1..][j] == y;
        assert Comparable(before, s[0], s[j + 1]);
      }
      InsertByKeeps(before, s[0], SortBy(before, s[1..]));
    }
  }
}
