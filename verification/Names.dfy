/**
 String order and the library call `sort.Strings`, as far as the publisher uses it:
 on lists without duplicates.
 */
module Names {
  import opened Sorting

  predicate LexLess(a: string, b: string) {
    b != [] && (a == [] || a[0] < b[0] || (a[0] == b[0] && LexLess(a[1..], b[1..])))
  }

  lemma {:induction false} LexLessTransitive(a: string, b: string, c: string)
    requires LexLess(a, b) && LexLess(b, c)
    ensures LexLess(a, c)
  {
    if a != [] && a[0] == b[0] == c[0] { LexLessTransitive(a[1..], b[1..], c[1..]); }
  }

  lemma {:induction false} LexLessIrreflexive(a: string)
    ensures !LexLess(a, a)
  {
    if a != [] { LexLessIrreflexive(a[1..]); }
  }

  lemma {:induction false} LexLessTotal(a: string, b: string)
    ensures LexLess(a, b) || a == b || LexLess(b, a)
  {
    if a != [] && b != [] && a[0] == b[0] {
      LexLessTotal(a[1..], b[1..]);
      assert a == [a[0]] + a[1..] && b == [b[0]] + b[1..];
    }
  }

  /** Strictly ascending, hence without duplicates. */
  predicate Ascending(s: seq<string>) {
    Chain(LexLess, s)
  }

  function Elements<T>(s: seq<T>): set<T> { set x | x in s }

  lemma ElementsEmpty<T>(s: seq<T>)
    ensures s == [] <==> Elements(s) == {}
  {
    if s != [] { assert s[0] in Elements(s); }
  }

  lemma {:induction false} SubsetSize<T>(a: set<T>, b: set<T>)
    requires a <= b
    ensures |a| <= |b|
  {
    if x :| x in a { SubsetSize(a - {x}, b - {x}); }
  }

  lemma {:induction false} HeadIsLeast(s: seq<string>, x: string)
    requires Ascending(s) && s != [] && x in s[1..]
    ensures LexLess(s[0], x)
  {
    if x != s[1] {
      assert s[1..] == [s[1]] + s[1..][1..];
      HeadIsLeast(s[1..], x);
      LexLessTransitive(s[0], s[1], x);
    }
  }

  lemma {:induction false} AscendingUnique(a: seq<string>, b: seq<string>)
    requires Ascending(a) && Ascending(b) && Elements(a) == Elements(b)
    ensures a == b
  {
    ElementsEmpty(a);
    ElementsEmpty(b);
    if a != [] {
      assert a[0] in Elements(b) && b[0] in Elements(a);
      assert a == [a[0]] + a[1..] && b == [b[0]] + b[1..];
      if a[0] != b[0] {
        HeadIsLeast(a, b[0]);
        HeadIsLeast(b, a[0]);
        LexLessTransitive(a[0], b[0], a[0]);
        LexLessIrreflexive(a[0]);
      }
      TailElements(a);
      TailElements(b);
      AscendingUnique(a[1..], b[1..]);
    }
  }

  lemma TailElements(s: seq<string>)
    requires Ascending(s) && s != []
    ensures Elements(s[1..]) == Elements(s) - {s[0]}
  {
    assert s == [s[0]] + s[1..];
    if s[0] in s[1..] {
      HeadIsLeast(s, s[0]);
      LexLessIrreflexive(s[0]);
    }
  }

  lemma SameElements<T>(a: seq<T>, b: seq<T>)
    requires multiset(a) == multiset(b)
    ensures Elements(a) == Elements(b) && |a| == |b|
  {
    forall x ensures x in a <==> x in b { assert x in a <==> x in multiset(a); assert x in b <==> x in multiset(b); }
    assert |multiset(a)| == |a| && |multiset(b)| == |b|;
  }

  function SortNames(s: seq<string>): seq<string> {
    SortBy(LexLess, s)
  }

  predicate Distinct<T(==)>(s: seq<T>) {
    s == [] || (s[0] !in s[1..] && Distinct(s[1..]))
  }

  lemma {:induction false} DistinctAppend<T>(s: seq<T>, x: T)
    requires Distinct(s) && x !in s
    ensures Distinct(s + [x])
  {
    if s != [] {
      DistinctAppend(s[1..], x);
      assert (s + [x])[1..] == s[1..] + [x];
    }
  }

  lemma {:induction false} DistinctAt<T>(s: seq<T>, i: nat, j: nat)
    requires Distinct(s) && i < j < |s|
    ensures s[i] != s[j]
  {
    if i == 0 { assert s[j] == s[1..][j - 1]; } else { DistinctAt(s[1..], i - 1, j - 1); }
  }

  lemma SortNamesKeeps(s: seq<string>)
    requires Distinct(s)
    ensures Ascending(SortNames(s)) && Elements(SortNames(s)) == Elements(s)
  {
    hide LexLess, Distinct, Chain;
    forall i, j | 0 <= i < j < |s| ensures Comparable(LexLess, s[i], s[j]) {
      DistinctAt(s, i, j);
      LexLessTotal(s[i], s[j]);
    }
    SortByKeeps(LexLess, s);
    SameElements(SortNames(s), s);
  }

  /** The one sorted list without duplicates of a set. */
  ghost predicate Enumerates(codes: seq<string>, s: set<string>) { Ascending(codes) && Elements(codes) == s }

  method SortedCodes(s: set<string>) returns (codes: seq<string>)
    ensures Enumerates(codes, s)
  {
    hide SortNames, Ascending;
    codes := [];
    var pending := s;
    while pending != {}
      invariant pending <= s && Distinct(codes) && Elements(codes) == s - pending
    {
      var c :| c in pending;
      assert c !in Elements(codes);
      DistinctAppend(codes, c);
      assert Elements(codes + [c]) == Elements(codes) + {c};
      codes := codes + [c];
      pending := pending - {c};
    }
    SortNamesKeeps(codes);
    codes := SortNames(codes);
  }
}
