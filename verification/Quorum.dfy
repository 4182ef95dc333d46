/**
 Sorting of rates, standing for the library call `sort.Float64s`.
 */
module Floats {
  import opened Sorting

  /** Position i is not below its left neighbour; named, so that sortedness is used on demand. */
  predicate InOrder(s: seq<real>, i: int)
    requires 0 < i < |s|
  {
    s[i - 1] <= s[i]
  }

  predicate IsSorted(s: seq<real>) {
    forall i :: 0 < i < |s| ==> InOrder(s, i)
  }

  lemma {:induction false} Ordered(s: seq<real>, i: nat, j: nat)
    requires IsSorted(s) && i <= j < |s|
    ensures s[i] <= s[j]
    decreases j - i
  {
    if i < j {
      Ordered(s, i, j - 1);
      assert InOrder(s, j);
    }
  }

  lemma TailSorted(s: seq<real>)
    requires s != [] && IsSorted(s)
    ensures IsSorted(s[1..])
  {
    forall i | 0 < i < |s| - 1 ensures InOrder(s[1..], i) { assert InOrder(s, i + 1); }
  }

  lemma SliceSorted(s: seq<real>, i: nat, j: nat)
    requires IsSorted(s) && i <= j <= |s|
    ensures IsSorted(s[i..j])
  {
    forall k | 0 < k < j - i ensures InOrder(s[i..j], k) { assert InOrder(s, i + k); }
  }

  predicate AtMost(a: real, b: real) { a <= b }

  function Sort(s: seq<real>): (r: seq<real>)
    ensures |r| == |s|
  {
    SortBy(AtMost, s)
  }

  lemma {:induction false} ChainIsSorted(s: seq<real>)
    requires Chain(AtMost, s)
    ensures IsSorted(s)
  {
    if |s| > 1 {
      ChainIsSorted(s[1..]);
      forall i | 0 < i < |s| ensures InOrder(s, i) { assert i > 1 ==> InOrder(s[1..], i - 1); }
    }
  }

  /** The result is in order and holds exactly the given values. */
  lemma SortKeeps(s: seq<real>)
    ensures IsSorted(Sort(s)) && multiset(Sort(s)) == multiset(s)
  {
    hide IsSorted;
    SortByKeeps(AtMost, s);
    ChainIsSorted(Sort(s));
  }

  lemma MemberByMultiset(a: seq<real>, b: seq<real>, x: real)
    requires multiset(a) <= multiset(b) && x in a
    ensures x in b
  {
    assert x in multiset(a);
  }

  lemma HeadIsLeast(s: seq<real>, x: real)
    requires IsSorted(s) && x in s
    ensures s[0] <= x
  {
    var i :| 0 <= i < |s| && s[i] == x;
    Ordered(s, 0, i);
  }

  lemma HeadAndTail(s: seq<real>)
    requires s != []
    ensures multiset(s) == multiset{s[0]} + multiset(s[1..])
  {
    assert s == [s[0]] + s[1..];
  }

  /** Equal multisets, equal heads: equal tails as multisets. */
  lemma EqualHeads(a: seq<real>, b: seq<real>)
    requires IsSorted(a) && IsSorted(b) && multiset(a) == multiset(b) && a != []
    ensures b != [] && a[0] == b[0] && multiset(a[1..]) == multiset(b[1..])
  {
    MemberByMultiset(a, b, a[0]);
    MemberByMultiset(b, a, b[0]);
    HeadIsLeast(a, b[0]);
    HeadIsLeast(b, a[0]);
    HeadAndTail(a);
    HeadAndTail(b);
    assert multiset(a[1..]) == multiset(a) - multiset{a[0]};
    assert multiset(b[1..]) == multiset(b) - multiset{b[0]};
  }

  lemma {:induction false} SortedUnique(a: seq<real>, b: seq<real>)
    requires IsSorted(a) && IsSorted(b) && multiset(a) == multiset(b)
    ensures a == b
  {
    if a == [] {
      assert |multiset(b)| == |b|;
    } else {
      EqualHeads(a, b);
      TailSorted(a);
      TailSorted(b);
      SortedUnique(a[1..], b[1..]);
    }
  }

  lemma SortOfSorted(s: seq<real>)
    requires IsSorted(s)
    ensures Sort(s) == s
  {
    SortKeeps(s);
    SortedUnique(s, Sort(s));
  }

  /** Sorting forgets the order of its input and nothing else. */
  lemma SortIsOrderFree(a: seq<real>, b: seq<real>)
    requires multiset(a) == multiset(b)
    ensures Sort(a) == Sort(b)
  {
    SortKeeps(a);
    SortKeeps(b);
    SortedUnique(Sort(a), Sort(b));
  }

  // ---- subsequences ---------------------------------------------------------------

  /** `f` picks strictly increasing positions of `t` that spell `s`. */
  ghost predicate Embeds(s: seq<real>, t: seq<real>, f: seq<nat>) {
    |f| == |s| &&
    (forall i :: 0 <= i < |f| ==> f[i] < |t| && t[f[i]] == s[i]) &&
    (forall i, j :: 0 <= i < j < |f| ==> f[i] < f[j])
  }

  lemma EmbedsSkip(s: seq<real>, t: seq<real>, g: seq<nat>) returns (f: seq<nat>)
    requires t != [] && Embeds(s, t[1..], g)
    ensures Embeds(s, t, f)
    ensures forall i :: 0 <= i < |f| ==> f[i] > 0
  {
    f := seq(|g|, i requires 0 <= i < |g| => g[i] + 1);
  }

  lemma EmbedsCons(s: seq<real>, t: seq<real>, g: seq<nat>) returns (f: seq<nat>)
    requires s != [] && t != [] && s[0] == t[0] && Embeds(s[1..], t[1..], g)
    ensures Embeds(s, t, f)
  {
    var h := EmbedsSkip(s[1..], t, g);
    f := [0] + h;
  }

  lemma DropEqualHeads(s: seq<real>, t: seq<real>)
    requires s != [] && multiset(s) <= multiset(t)
    ensures t != []
    ensures s[0] == t[0] ==> multiset(s[1..]) <= multiset(t[1..])
  {
    MemberByMultiset(s, t, s[0]);
    HeadAndTail(s);
    HeadAndTail(t);
    assert multiset(t[1..]) == multiset(t) - multiset{t[0]};
    assert multiset(s[1..]) == multiset(s) - multiset{s[0]};
  }

  lemma DropSmallerHead(s: seq<real>, t: seq<real>)
    requires s != [] && t != [] && IsSorted(s) && IsSorted(t) && multiset(s) <= multiset(t)
    requires s[0] != t[0]
    ensures multiset(s) <= multiset(t[1..])
  {
    MemberByMultiset(s, t, s[0]);
    HeadIsLeast(t, s[0]);
    if t[0] in s { HeadIsLeast(s, t[0]); }
    HeadAndTail(t);
    assert multiset(s)[t[0]] == 0;
  }

  /** A sorted sub-multiset of a sorted sequence is one of its subsequences. */
  lemma {:induction false} SubMultisetEmbeds(s: seq<real>, t: seq<real>) returns (f: seq<nat>)
    requires IsSorted(s) && IsSorted(t) && multiset(s) <= multiset(t)
    ensures Embeds(s, t, f)
    decreases |t|
  {
    if s == [] {
      f := [];
    } else {
      DropEqualHeads(s, t);
      TailSorted(t);
      if s[0] == t[0] {
        TailSorted(s);
        DropEqualHeads(s, t);
        var g := SubMultisetEmbeds(s[1..], t[1..]);
        f := EmbedsCons(s, t, g);
      } else {
        DropSmallerHead(s, t);
        var g := SubMultisetEmbeds(s, t[1..]);
        f := EmbedsSkip(s, t, g);
      }
    }
  }

  lemma {:induction false} EmbeddingSpread(s: seq<real>, t: seq<real>, f: seq<nat>, i: nat, j: nat)
    requires Embeds(s, t, f) && i <= j < |f|
    ensures f[i] + (j - i) <= f[j]
    decreases j - i
  {
    if i < j { EmbeddingSpread(s, t, f, i, j - 1); }
  }
}

/**
 The FX quorum: which provider values agree, and which window of them wins
 (internal/fx/quorum.go). Rates are modelled as `real`, so rounding is not part of the model.
 */
module Quorum {
  import opened Floats

  /** Maximum relative spread between two agreeing values. */
  const QUORUM_TOLERANCE: real := 0.005

  // ---- the agreement test -----------------------------------------------------

  function RelDiff(a: real, b: real): real {
    if a == b then 0.0
    else
      var denom := if b < a then b else a;
      if denom <= 0.0 then 1.0
      else (if a - b < 0.0 then b - a else a - b) / denom
  }

  /** The middle of a sorted, nonempty sequence. */
  function Middle(sorted: seq<real>): real
    requires sorted != []
  {
    var mid := |sorted| / 2;
    if |sorted| % 2 == 1 then sorted[mid] else (sorted[mid - 1] + sorted[mid]) / 2.0
  }

  function Median(vals: seq<real>): real
    requires vals != []
  {
    Middle(Sort(vals))
  }

  // ---- a linear form of the tolerance --------------------------------------------

  /** A cross-multiplied form of the tolerance test: symmetric and linear. */
  predicate Close(a: real, b: real) {
    a <= 1.005 * b && b <= 1.005 * a
  }

  predicate Near(a: real, b: real) {
    a == b || (a > 0.0 && b > 0.0 && Close(a, b))
  }

  lemma QuotientBound(e: real, d: real)
    requires d > 0.0
    ensures e / d <= 0.005 <==> e <= 0.005 * d
  {
    var gap := 0.005 - e / d;
    assert 0.005 * d - e == gap * d;
    if gap >= 0.0 { assert gap * d >= 0.0; } else { assert gap * d < 0.0; }
  }

  /** The division-based test of the code and the linear one accept the same pairs. */
  lemma RelDiffIsNear(a: real, b: real)
    ensures RelDiff(a, b) <= QUORUM_TOLERANCE <==> Near(a, b)
  {
    if a > 0.0 && b > 0.0 {
      if b < a { QuotientBound(a - b, b); } else { QuotientBound(b - a, a); }
    }
  }

  predicate NearAt(window: seq<real>, i: int, m: real)
    requires 0 <= i < |window|
  {
    Near(window[i], m)
  }

  /** Every member is within the tolerance of `m`. */
  predicate AllNear(window: seq<real>, m: real) {
    forall i :: 0 <= i < |window| ==> NearAt(window, i, m)
  }

  ghost predicate Agrees(window: seq<real>) {
    window != [] && AllNear(window, Median(window))
  }

  method WindowAgrees(window: seq<real>) returns (ok: bool)
    requires window != []
    ensures ok <==> Agrees(window)
  {
    var m := Median(window);
    for k := 0 to |window|
      invariant forall i :: 0 <= i < k ==> NearAt(window, i, m)
    {
      RelDiffIsNear(window[k], m);
      assert NearAt(window, k, m) <==> RelDiff(window[k], m) <= QUORUM_TOLERANCE;
      if RelDiff(window[k], m) > QUORUM_TOLERANCE {
        return false;
      }
    }
    return true;
  }

  predicate AllPositive(s: seq<real>) { forall i :: 0 <= i < |s| ==> s[i] > 0.0 }

  lemma PositiveByMultiset(s: seq<real>, vals: seq<real>)
    requires multiset(s) <= multiset(vals) && AllPositive(vals)
    ensures AllPositive(s)
  {
    forall i | 0 <= i < |s| ensures s[i] > 0.0 { MemberByMultiset(s, vals, s[i]); }
  }

  lemma MiddleBetween(s: seq<real>)
    requires s != [] && IsSorted(s)
    ensures s[0] <= Middle(s) <= s[|s| - 1]
  {
    var mid := |s| / 2;
    Ordered(s, 0, mid);
    Ordered(s, mid, |s| - 1);
    if |s| % 2 == 0 {
      Ordered(s, 0, mid - 1);
      Ordered(s, mid - 1, mid);
    }
  }

  /** For a sorted positive window only its two ends need testing. */
  lemma SortedAgrees(s: seq<real>)
    requires s != [] && IsSorted(s) && AllPositive(s)
    ensures Agrees(s) <==> Close(s[0], Middle(s)) && Close(s[|s| - 1], Middle(s))
  {
    SortOfSorted(s);
    MiddleBetween(s);
    var m := Middle(s);
    if Agrees(s) {
      assert NearAt(s, 0, m) && NearAt(s, |s| - 1, m);
    }
    if Close(s[0], m) && Close(s[|s| - 1], m) {
      forall i | 0 <= i < |s| ensures NearAt(s, i, m) {
        Ordered(s, 0, i);
        Ordered(s, i, |s| - 1);
      }
    }
  }

  lemma AgreesIsOrderFree(s: seq<real>, t: seq<real>)
    requires multiset(s) == multiset(t) && Agrees(s)
    ensures Agrees(t)
  {
    SortIsOrderFree(s, t);
    assert |multiset(s)| == |s| && |multiset(t)| == |t|;
    forall i | 0 <= i < |t| ensures NearAt(t, i, Median(t)) {
      MemberByMultiset(t, s, t[i]);
      var j :| 0 <= j < |s| && s[j] == t[i];
      assert NearAt(s, j, Median(s));
    }
  }

  // ---- the window search --------------------------------------------------------

  /** `s[i..j]` is a nonempty window whose members agree with its median. */
  ghost predicate ValidWindow(s: seq<real>, i: int, j: int) {
    0 <= i < j <= |s| && Agrees(s[i..j])
  }

  /** Window (i, j) beats (a, b): longer, or as long and not further right. */
  predicate Beats(i: int, j: int, a: int, b: int) {
    b - a < j - i || (b - a == j - i && i <= a)
  }

  ghost predicate BestWindow(s: seq<real>, i: int, j: int) {
    ValidWindow(s, i, j) && forall a, b :: ValidWindow(s, a, b) ==> Beats(i, j, a, b)
  }

  lemma SingletonIsValid(s: seq<real>, i: nat)
    requires i < |s|
    ensures ValidWindow(s, i, i + 1)
  {
    assert s[i..i + 1] == [s[i]];
    SortOfSorted([s[i]]);
  }

  lemma {:induction false} BestWindowExists(s: seq<real>, len: int, start: int)
    requires s != [] && 1 <= len <= |s| && 0 <= start <= |s| - len
    requires forall a, b :: ValidWindow(s, a, b) ==> Beats(start, start + len, a, b)
    ensures exists i, j :: BestWindow(s, i, j)
    decreases len, |s| - start
  {
    hide Agrees;
    if ValidWindow(s, start, start + len) {
      assert BestWindow(s, start, start + len);
    } else if start < |s| - len {
      BestWindowExists(s, len, start + 1);
    } else if len > 1 {
      BestWindowExists(s, len - 1, 0);
    } else {
      SingletonIsValid(s, start);
    }
  }

  ghost function BestWindowOf(s: seq<real>): (w: (int, int))
    requires s != []
    ensures BestWindow(s, w.0, w.1)
  {
    BestWindowExists(s, |s|, 0);
    var i, j :| BestWindow(s, i, j);
    (i, j)
  }

  /** The cluster the search settles on: the first of the longest agreeing windows. */
  ghost function Cluster(vals: seq<real>): seq<real> {
    if vals == [] then [] else
      var w := BestWindowOf(Sort(vals));
      Sort(vals)[w.0..w.1]
  }

  lemma BestWindowIsCluster(vals: seq<real>, i: int, j: int)
    requires vals != [] && BestWindow(Sort(vals), i, j)
    ensures Cluster(vals) == Sort(vals)[i..j]
  {
    hide Agrees;
    hide Sort;
    var w := BestWindowOf(Sort(vals));
    assert Beats(i, j, w.0, w.1) && Beats(w.0, w.1, i, j);
  }

  lemma ClusterLength(vals: seq<real>)
    ensures vals == [] ==> Cluster(vals) == []
    ensures vals != [] ==>
      var w := BestWindowOf(Sort(vals)); ValidWindow(Sort(vals), w.0, w.1) && |Cluster(vals)| == w.1 - w.0
  {
    hide Agrees;
    hide Sort;
  }

  lemma ClusterOfOne(vals: seq<real>)
    requires |vals| == 1
    ensures Cluster(vals) == vals
  {
    SortOfSorted(vals);
    SingletonIsValid(vals, 0);
    assert BestWindow(vals, 0, 1);
    BestWindowIsCluster(vals, 0, 1);
  }

  method LargestAgreeingCluster(vals: seq<real>) returns (out: seq<real>)
    ensures out == Cluster(vals)
  {
    if |vals| <= 1 {
      if |vals| == 1 { ClusterOfOne(vals); }
      return vals;
    }
    var sorted := Sort(vals);
    ghost var bi, bj := 0, 0;
    out, bi, bj := ScanWindows(sorted);
    BestWindowIsCluster(vals, bi, bj);
  }

  method ScanWindows(sorted: seq<real>) returns (best: seq<real>, ghost bi: int, ghost bj: int)
    requires sorted != []
    ensures BestWindow(sorted, bi, bj) && best == sorted[bi..bj]
  {
    hide Agrees;
    hide Sort;
    best, bi, bj := [], 0, 0;
    for i := 0 to |sorted|
      invariant 0 <= bi <= bj <= |sorted| && best == sorted[bi..bj] && bi <= i
      invariant bi < bj ==> ValidWindow(sorted, bi, bj)
      invariant forall a, b :: ValidWindow(sorted, a, b) && a < i ==> Beats(bi, bj, a, b)
    {
      for j := i + 1 to |sorted| + 1
        invariant 0 <= bi <= bj <= |sorted| && best == sorted[bi..bj] && bi <= i
        invariant bi < bj ==> ValidWindow(sorted, bi, bj)
        invariant forall a, b :: ValidWindow(sorted, a, b) && (a < i || (a == i && b < j)) ==> Beats(bi, bj, a, b)
      {
        var ok := WindowAgrees(sorted[i..j]);
        if ok && j - i > |best| {
          best := sorted[i..j];
          bi, bj := i, j;
        }
      }
    }
    SingletonIsValid(sorted, 0);
  }

  // ---- what the search is worth: the exchange argument -----------------------------

  ghost predicate AgreeingSubset(s: seq<real>, vals: seq<real>) {
    multiset(s) <= multiset(vals) && Agrees(s)
  }

  /** The search found a window of the sorted values at least `n` long. */
  lemma WindowBound(vals: seq<real>, i: int, j: int)
    requires vals != [] && ValidWindow(Sort(vals), i, j)
    ensures j - i <= |Cluster(vals)|
  {
    var w := BestWindowOf(Sort(vals));
    assert Beats(w.0, w.1, i, j);
  }

  lemma SliceIsSubMultiset(t: seq<real>, i: nat, j: nat)
    requires i <= j <= |t|
    ensures multiset(t[i..j]) <= multiset(t)
  {
    assert t == t[..i] + t[i..j] + t[j..];
  }

  lemma ClusterAgrees(vals: seq<real>)
    requires vals != []
    ensures AgreeingSubset(Cluster(vals), vals) && IsSorted(Cluster(vals))
  {
    var w := BestWindowOf(Sort(vals));
    assert ValidWindow(Sort(vals), w.0, w.1);
    SortKeeps(vals);
    SliceIsSubMultiset(Sort(vals), w.0, w.1);
    SliceSorted(Sort(vals), w.0, w.1);
  }

  lemma SubsetNeedsValues(vals: seq<real>, sub: seq<real>)
    requires AgreeingSubset(sub, vals)
    ensures vals != []
  {
    MemberByMultiset(sub, vals, sub[0]);
  }

  /** Replace a subset by its sorted copy. */
  lemma SortedCopy(vals: seq<real>, sub: seq<real>) returns (s: seq<real>, f: seq<nat>)
    requires AllPositive(vals) && AgreeingSubset(sub, vals)
    ensures |s| == |sub| && IsSorted(s) && AllPositive(s) && Agrees(s) && Embeds(s, Sort(vals), f)
  {
    s := Sort(sub);
    SortKeeps(sub);
    SortKeeps(vals);
    AgreesIsOrderFree(sub, s);
    PositiveByMultiset(s, vals);
    f := SubMultisetEmbeds(s, Sort(vals));
  }

  /** A window with median m agrees when it lies within values that agree with m. */
  lemma WindowWithin(t: seq<real>, i: nat, j: nat, lo: real, hi: real, m: real)
    requires i < j <= |t| && IsSorted(t) && AllPositive(t)
    requires Middle(t[i..j]) == m && lo <= t[i] && t[j - 1] <= hi && 0.0 < lo
    requires Close(lo, m) && Close(hi, m)
    ensures ValidWindow(t, i, j)
  {
    var w := t[i..j];
    SliceSorted(t, i, j);
    MiddleBetween(w);
    SortedAgrees(w);
  }

  /** Exchange: an odd agreeing sub-multiset can be slid onto the window around its median. */
  lemma OddSubsetBound(vals: seq<real>, sub: seq<real>)
    requires AllPositive(vals) && AgreeingSubset(sub, vals) && |sub| % 2 == 1
    ensures |sub| <= |Cluster(vals)|
  {
    SubsetNeedsValues(vals, sub);
    var t := Sort(vals);
    SortKeeps(vals);
    PositiveByMultiset(t, vals);
    var s, f := SortedCopy(vals, sub);
    var i, j := SlideOdd(s, t, f);
    WindowBound(vals, i, j);
  }

  lemma SlideOdd(s: seq<real>, t: seq<real>, f: seq<nat>) returns (i: nat, j: nat)
    requires |s| % 2 == 1 && IsSorted(s) && AllPositive(s) && Agrees(s)
    requires IsSorted(t) && AllPositive(t) && Embeds(s, t, f)
    ensures ValidWindow(t, i, j) && j - i == |s|
  {
    hide Sort;
    hide Agrees;
    hide ValidWindow;
    SortedAgrees(s);
    var k := |s| / 2;
    var q := f[k];
    EmbeddingSpread(s, t, f, 0, k);
    EmbeddingSpread(s, t, f, k, 2 * k);
    i, j := q - k, q + k + 1;
    Ordered(t, f[0], i);
    Ordered(t, j - 1, f[2 * k]);
    assert t[i..j][k] == t[q];
    WindowWithin(t, i, j, s[0], s[2 * k], t[q]);
  }

  /** Two runs of k neighbours each, ending at p and starting at q, that agree with the midpoint
      of the gap between them. With q == p + 1 it is an ordinary window of even length. */
  predicate SplitAgrees(t: seq<real>, p: int, q: int, k: int) {
    1 <= k && 0 <= p - k + 1 && p < q && q + k <= |t| &&
    Close(t[p - k + 1], (t[p] + t[q]) / 2.0) && Close(t[q + k - 1], (t[p] + t[q]) / 2.0)
  }

  /** The runs of `k` on either side of the two middle members lie between the ends. */
  lemma RunsInside(s: seq<real>, t: seq<real>, f: seq<nat>, k: nat)
    requires k > 0 && |s| == 2 * k && IsSorted(t) && Embeds(s, t, f)
    ensures var (p, q) := (f[k - 1], f[k]);
      0 <= p - k + 1 && p < q && q + k <= |t| && t[p] == s[k - 1] && t[q] == s[k] &&
      s[0] <= t[p - k + 1] <= t[p] <= t[q] <= t[q + k - 1] <= s[2 * k - 1]
  {
    hide IsSorted;
    var p, q := f[k - 1], f[k];
    EmbeddingSpread(s, t, f, 0, k - 1);
    EmbeddingSpread(s, t, f, k, 2 * k - 1);
    Ordered(t, f[0], p - k + 1);
    Ordered(t, p - k + 1, p);
    Ordered(t, p, q);
    Ordered(t, q, q + k - 1);
    Ordered(t, q + k - 1, f[2 * k - 1]);
  }

  lemma SlideRuns(s: seq<real>, t: seq<real>, f: seq<nat>, k: nat)
    requires k > 0 && |s| == 2 * k && IsSorted(s) && AllPositive(s) && Agrees(s)
    requires IsSorted(t) && Embeds(s, t, f)
    ensures SplitAgrees(t, f[k - 1], f[k], k)
  {
    assert |f| == |s|;
    hide Agrees, Close, IsSorted, Embeds, Middle, SplitAgrees;
    RunsInside(s, t, f, k);
    SortedAgrees(s);
    EvenMiddle(s, k);
    SplitInside(t, f[k - 1], f[k], k, s[0], s[2 * k - 1]);
  }

  lemma SplitInside(t: seq<real>, p: int, q: int, k: nat, lo: real, hi: real)
    requires k > 0 && 0 <= p - k + 1 && p < q && q + k <= |t|
    requires 0.0 < lo <= t[p - k + 1] <= t[p] <= t[q] <= t[q + k - 1] <= hi
    requires Close(lo, (t[p] + t[q]) / 2.0) && Close(hi, (t[p] + t[q]) / 2.0)
    ensures SplitAgrees(t, p, q, k)
  {
    hide Close;
    var m := (t[p] + t[q]) / 2.0;
    CloseInside(lo, t[p - k + 1], m, t[q + k - 1], hi);
  }

  lemma SlideEven(s: seq<real>, t: seq<real>, f: seq<nat>) returns (p: int, q: int)
    requires s != [] && |s| % 2 == 0 && IsSorted(s) && AllPositive(s) && Agrees(s)
    requires IsSorted(t) && AllPositive(t) && Embeds(s, t, f)
    ensures SplitAgrees(t, p, q, |s| / 2)
  {
    hide Agrees, AllPositive, IsSorted, SplitAgrees;
    var k := |s| / 2;
    p, q := f[k - 1], f[k];
    SlideRuns(s, t, f, k);
  }

  lemma EvenMiddle(s: seq<real>, k: nat)
    requires k > 0 && |s| == 2 * k
    ensures Middle(s) == (s[k - 1] + s[k]) / 2.0
  {
  }

  /** Between the midpoint and what is close to it, everything is close to it. */
  lemma CloseInside(lo: real, x: real, m: real, y: real, hi: real)
    requires 0.0 < lo <= x <= m <= y <= hi && Close(lo, m) && Close(hi, m)
    ensures Close(x, m) && Close(y, m)
  {
  }

  lemma EvenSubsetSplits(vals: seq<real>, sub: seq<real>) returns (p: int, q: int)
    requires AllPositive(vals) && AgreeingSubset(sub, vals) && |sub| % 2 == 0
    ensures SplitAgrees(Sort(vals), p, q, |sub| / 2)
  {
    SortKeeps(vals);
    PositiveByMultiset(Sort(vals), vals);
    var s, f := SortedCopy(vals, sub);
    p, q := SlideEven(s, Sort(vals), f);
  }

  lemma RunsAgree(t: seq<real>, p: int, q: int, k: int)
    requires IsSorted(t) && AllPositive(t) && SplitAgrees(t, p, q, k)
    ensures Agrees(t[p - k + 1..p + 1] + t[q..q + k])
  {
    hide Agrees;
    hide Sort;
    var lower, upper := t[p - k + 1..p + 1], t[q..q + k];
    var sub := lower + upper;
    assert lower[k - 1] == t[p] && upper[0] == t[q];
    assert sub[k - 1] == t[p] && sub[k] == t[q];
    Ordered(t, p, q);
    forall i | 0 < i < 2 * k ensures InOrder(sub, i) {
      if i < k { assert InOrder(t, p - k + 1 + i); }
      if i > k { assert InOrder(t, q + i - k); }
    }
    assert Middle(sub) == (t[p] + t[q]) / 2.0;
    SortedAgrees(sub);
  }

  lemma RunsAreSubMultiset(t: seq<real>, a: nat, b: nat, c: nat, d: nat)
    requires a <= b <= c <= d <= |t|
    ensures multiset(t[a..b] + t[c..d]) <= multiset(t)
  {
    hide IsSorted;
    SliceIsSubMultiset(t, a, b);
    assert t == t[..c] + t[c..];
    SliceIsSubMultiset(t[..c], a, b);
    SliceIsSubMultiset(t[c..], 0, d - c);
    assert t[..c][a..b] == t[a..b] && t[c..][0..d - c] == t[c..d];
  }

  lemma SplitIsSubset(vals: seq<real>, p: int, q: int, k: int) returns (sub: seq<real>)
    requires AllPositive(vals) && SplitAgrees(Sort(vals), p, q, k)
    ensures AgreeingSubset(sub, vals) && |sub| == 2 * k
  {
    hide Sort;
    hide Agrees;
    hide IsSorted;
    var t := Sort(vals);
    SortKeeps(vals);
    PositiveByMultiset(t, vals);
    hide AllPositive;
    sub := t[p - k + 1..p + 1] + t[q..q + k];
    assert |sub| == 2 * k;
    RunsAgree(t, p, q, k);
    hide SplitAgrees;
    RunsAreSubMultiset(t, p - k + 1, p + 1, q, q + k);
  }

  lemma AdjacentSplitIsWindow(vals: seq<real>, p: int, k: int)
    requires AllPositive(vals) && SplitAgrees(Sort(vals), p, p + 1, k)
    ensures 2 * k <= |Cluster(vals)|
  {
    hide Sort;
    hide Agrees;
    hide ValidWindow;
    hide Cluster;
    var t := Sort(vals);
    SortKeeps(vals);
    PositiveByMultiset(t, vals);
    var w := t[p - k + 1..p + 1 + k];
    assert w[k - 1] == t[p] && w[k] == t[p + 1];
    WindowWithin(t, p - k + 1, p + 1 + k, t[p - k + 1], t[p + k], (t[p] + t[p + 1]) / 2.0);
    WindowBound(vals, p - k + 1, p + 1 + k);
  }

  ghost predicate FindsLargest(vals: seq<real>) {
    forall sub :: AgreeingSubset(sub, vals) ==> |sub| <= |Cluster(vals)|
  }

  /** The window from i to j has both ends close to its middle: on sorted positive values, it agrees. */
  predicate WindowFits(t: seq<real>, i: int, j: int) {
    0 <= i < j <= |t| && Close(t[i], Middle(t[i..j])) && Close(t[j - 1], Middle(t[i..j]))
  }

  lemma WindowFitsIff(t: seq<real>, i: int, j: int)
    requires IsSorted(t) && AllPositive(t)
    ensures WindowFits(t, i, j) <==> ValidWindow(t, i, j)
  {
    hide Agrees;
    hide Sort;
    if 0 <= i < j <= |t| {
      SliceSorted(t, i, j);
      SortedAgrees(t[i..j]);
    }
  }

  /**
   Wherever two separated runs of k values (some value between them skipped) agree with the midpoint of the
   gap between them, some unbroken window of 2k values or more agrees with its own middle.
   */
  predicate SplitsAreCovered(t: seq<real>) {
    forall p, q, k :: 0 <= p < |t| && 0 <= q < |t| && 0 <= k <= |t| && SplitAgrees(t, p, q, k) && p + 1 < q ==>
      exists i, j :: 0 <= i < |t| && 0 <= j <= |t| && WindowFits(t, i, j) && 2 * k <= j - i
  }

  /** Half of the exactness below: a run pair is an agreeing subset, so a window as long must exist. */
  lemma LargestCoversSplits(vals: seq<real>)
    requires AllPositive(vals) && FindsLargest(vals)
    ensures SplitsAreCovered(Sort(vals))
  {
    hide Agrees, Sort, Cluster, ValidWindow, WindowFits;
    var t := Sort(vals);
    SortKeeps(vals);
    PositiveByMultiset(t, vals);
    forall p, q, k | SplitAgrees(t, p, q, k) && p + 1 < q
      ensures exists i, j :: 0 <= i < |t| && 0 <= j <= |t| && WindowFits(t, i, j) && 2 * k <= j - i
    {
      var sub := SplitIsSubset(vals, p, q, k);
      SubsetNeedsValues(vals, sub);
      ClusterLength(vals);
      var w := BestWindowOf(t);
      WindowFitsIff(t, w.0, w.1);
      WindowInRange(t, w.0, w.1);
    }
  }

  lemma WindowInRange(t: seq<real>, i: int, j: int)
    requires ValidWindow(t, i, j)
    ensures 0 <= i < j <= |t|
  {
  }

  lemma CoveredSplitIsFound(vals: seq<real>, p: int, q: int, k: int)
    requires AllPositive(vals) && SplitsAreCovered(Sort(vals)) && SplitAgrees(Sort(vals), p, q, k) && p + 1 < q
    ensures 2 * k <= |Cluster(vals)|
  {
    hide Agrees, Sort, Cluster, ValidWindow, WindowFits;
    var t := Sort(vals);
    SortKeeps(vals);
    PositiveByMultiset(t, vals);
    var i, j :| 0 <= i < |t| && 0 <= j <= |t| && WindowFits(t, i, j) && 2 * k <= j - i;
    WindowFitsIff(t, i, j);
    EmptyHasNoSplit(vals, p, q, k);
    WindowBound(vals, i, j);
  }

  lemma EmptyHasNoSplit(vals: seq<real>, p: int, q: int, k: int)
    requires SplitAgrees(Sort(vals), p, q, k)
    ensures vals != []
  {
    SortKeeps(vals);
  }

  /**
   The doc comment promises the largest agreeing subset. The search delivers exactly that when every pair of
   separated agreeing runs in the sorted input is covered by an agreeing window: a condition on the values
   alone, decided by comparing ends with middles.
   */
  lemma LargestSubsetIff(vals: seq<real>)
    requires AllPositive(vals)
    ensures FindsLargest(vals) <==> SplitsAreCovered(Sort(vals))
  {
    hide Agrees, Sort, Cluster, SplitsAreCovered;
    if FindsLargest(vals) { LargestCoversSplits(vals); }
    if SplitsAreCovered(Sort(vals)) {
      forall sub | AgreeingSubset(sub, vals) ensures |sub| <= |Cluster(vals)| {
        if |sub| % 2 == 1 {
          OddSubsetBound(vals, sub);
        } else {
          var p, q := EvenSubsetSplits(vals, sub);
          if q == p + 1 { AdjacentSplitIsWindow(vals, p, |sub| / 2); }
          else { CoveredSplitIsFound(vals, p, q, |sub| / 2); }
        }
      }
    }
  }

  /** Three numbers of the form 1/1.005 < c < 1 < 1.00497... < 1.005 around which the search loses a value. */
  const LOW := 200.0 / 201.0
  const NEAR := 0.9951
  const HIGH := 202.0 / 201.0
  const TOP := 1.005

  lemma NoWindowOfFour(i: int, j: int)
    requires ValidWindow([LOW, LOW, NEAR, HIGH, TOP], i, j)
    ensures j - i < 4
  {
    hide Agrees;
    hide Sort;
    var vals := [LOW, LOW, NEAR, HIGH, TOP];
    var w := vals[i..j];
    if j - i == 5 {
      assert w == vals;
      SortedAgrees(vals);
    } else if j - i == 4 {
      if i == 0 {
        assert w == [LOW, LOW, NEAR, HIGH];
        SortedAgrees([LOW, LOW, NEAR, HIGH]);
      } else {
        assert w == [LOW, NEAR, HIGH, TOP];
        SortedAgrees([LOW, NEAR, HIGH, TOP]);
      }
    }
  }

  /** The five values, followed by k values that each double the one before: none of those agrees with anything. */
  function Padded(k: nat): (t: seq<real>)
    ensures |t| == 5 + k
  {
    if k == 0 then [LOW, LOW, NEAR, HIGH, TOP]
    else
      var t := Padded(k - 1);
      t + [2.0 * t[|t| - 1]]
  }

  lemma {:induction false} PaddedSorted(k: nat)
    ensures IsSorted(Padded(k)) && AllPositive(Padded(k))
  {
    var t := Padded(k);
    if k > 0 {
      PaddedSorted(k - 1);
      var rest := Padded(k - 1);
      forall i | 0 < i < |t| ensures InOrder(t, i) { if i < |rest| { assert InOrder(rest, i); } }
    } else {
      forall i | 0 < i < |t| ensures InOrder(t, i) {}
    }
  }

  lemma {:induction false} PaddedDoubles(k: nat, i: nat)
    requires 5 <= i < 5 + k
    ensures Padded(k)[i] == 2.0 * Padded(k)[i - 1]
  {
    if i < 4 + k { PaddedDoubles(k - 1, i); }
  }

  lemma {:induction false} PaddedPrefix(k: nat)
    ensures Padded(k)[..5] == Padded(0)
  {
    if k > 0 { PaddedPrefix(k - 1); }
  }

  /** A value twice the one below it agrees with no window of two or more that ends in it. */
  lemma DoubledEndDisagrees(t: seq<real>, i: nat, j: nat)
    requires i + 1 < j <= |t| && IsSorted(t) && AllPositive(t) && t[j - 1] == 2.0 * t[j - 2]
    ensures !ValidWindow(t, i, j)
  {
    hide Agrees, Sort;
    WindowFitsIff(t, i, j);
    SliceSorted(t, i, j);
    var w := t[i..j];
    var mid := |w| / 2;
    Ordered(w, mid, |w| - 1);
    Ordered(w, mid - 1, |w| - 2);
    if |w| % 2 == 1 { Ordered(w, mid, |w| - 2); }
    hide IsSorted;
  }

  lemma NoPaddedWindowOfFour(k: nat, i: int, j: int)
    requires ValidWindow(Padded(k), i, j)
    ensures j - i < 4
  {
    hide Agrees, Padded;
    if j <= 5 {
      PaddedPrefix(k);
      assert Padded(k)[i..j] == Padded(k)[..5][i..j];
      FiveValues();
      NoWindowOfFour(i, j);
    } else if j - i >= 4 {
      PaddedSorted(k);
      PaddedDoubles(k, j - 1);
      DoubledEndDisagrees(Padded(k), i, j);
    }
  }

  lemma FiveValues()
    ensures Padded(0) == [LOW, LOW, NEAR, HIGH, TOP]
  {
  }

  lemma FourAgree()
    ensures Agrees([LOW, LOW, HIGH, TOP])
  {
    hide Agrees, Sort;
    SortedAgrees([LOW, LOW, HIGH, TOP]);
  }

  lemma DropThird(a: real, b: real, c: real, d: real, e: real)
    ensures multiset([a, b, d, e]) <= multiset([a, b, c, d, e])
  {
    assert [a, b, c, d, e] == [a, b] + [c] + [d, e] && [a, b, d, e] == [a, b] + [d, e];
  }

  lemma FourOfPadded(k: nat)
    ensures multiset([LOW, LOW, HIGH, TOP]) <= multiset(Padded(k))
  {
    hide Padded;
    PaddedPrefix(k);
    FiveValues();
    SliceIsSubMultiset(Padded(k), 0, 5);
    DropThird(LOW, LOW, NEAR, HIGH, TOP);
  }

  /**
   The promise does fail, for every number of values from five on: four of these values agree, no window
   of four does.
   */
  lemma LargestSubsetCounterexample(k: nat)
    ensures |Padded(k)| == 5 + k && AllPositive(Padded(k)) && !FindsLargest(Padded(k))
  {
    hide Agrees, Sort, ValidWindow, Cluster, Padded;
    var vals, sub := Padded(k), [LOW, LOW, HIGH, TOP];
    PaddedSorted(k);
    SortOfSorted(vals);
    FourAgree();
    FourOfPadded(k);
    assert AgreeingSubset(sub, vals);
    ClusterLength(vals);
    var w := BestWindowOf(vals);
    NoPaddedWindowOfFour(k, w.0, w.1);
    assert |Cluster(vals)| < |sub|;
  }

  ghost predicate AlwaysFindsLargest(n: nat) {
    forall vals: seq<real> :: |vals| == n && AllPositive(vals) ==> FindsLargest(vals)
  }

  /** Among four values, separated runs are single values, and then two neighbours agree as well. */
  lemma FourSuffice(vals: seq<real>)
    requires |vals| <= 4 && AllPositive(vals)
    ensures FindsLargest(vals)
  {
    hide Agrees, Sort, Cluster, SplitsAreCovered, ValidWindow;
    forall sub | AgreeingSubset(sub, vals) ensures |sub| <= |Cluster(vals)| {
      if |sub| % 2 == 1 {
        OddSubsetBound(vals, sub);
      } else {
        var p, q := EvenSubsetSplits(vals, sub);
        SortKeeps(vals);
        assert |multiset(Sort(vals))| == |multiset(vals)|;
        if q == p + 1 { AdjacentSplitIsWindow(vals, p, |sub| / 2); }
        else { SplitHasPair(vals, p, q, |sub| / 2); }
      }
    }
  }

  /** What a caller knows beforehand: the promise holds of every input of n positive values if and only if n <= 4. */
  lemma AlwaysFindsLargestIff(n: nat)
    ensures AlwaysFindsLargest(n) <==> n <= 4
  {
    hide FindsLargest, AllPositive, Padded;
    if n <= 4 {
      forall vals: seq<real> | |vals| == n && AllPositive(vals) ensures FindsLargest(vals) { FourSuffice(vals); }
    } else {
      LargestSubsetCounterexample(n - 5);
    }
  }

  /** A quorum of two is decided exactly, gaps or not. */
  lemma PairQuorumIff(vals: seq<real>)
    requires AllPositive(vals)
    ensures |Cluster(vals)| >= 2 <==> exists sub :: AgreeingSubset(sub, vals) && |sub| >= 2
  {
    hide Sort;
    hide Cluster;
    ClusterLength(vals);
    if |Cluster(vals)| >= 2 {
      ClusterAgrees(vals);
    }
    if sub :| AgreeingSubset(sub, vals) && |sub| >= 2 {
      if |sub| % 2 == 1 {
        OddSubsetBound(vals, sub);
      } else {
        var p, q := EvenSubsetSplits(vals, sub);
        SplitHasPair(vals, p, q, |sub| / 2);
      }
    }
  }

  lemma SplitHasPair(vals: seq<real>, p: int, q: int, k: int)
    requires AllPositive(vals) && SplitAgrees(Sort(vals), p, q, k)
    ensures |Cluster(vals)| >= 2
  {
    hide Agrees;
    hide Sort;
    hide Cluster;
    var t := Sort(vals);
    SortKeeps(vals);
    PositiveByMultiset(t, vals);
    Ordered(t, p - k + 1, p);
    Ordered(t, p, p + 1);
    Ordered(t, p + 1, q);
    Ordered(t, q - 1, q);
    Ordered(t, q, q + k - 1);
    if t[p + 1] <= (t[p] + t[q]) / 2.0 || q == p + 1 {
      assert SplitAgrees(t, p, p + 1, 1);
      AdjacentSplitIsWindow(vals, p, 1);
    } else {
      Ordered(t, p + 1, q - 1);
      assert SplitAgrees(t, q - 1, q, 1);
      AdjacentSplitIsWindow(vals, q - 1, 1);
    }
  }

  /** The cluster depends on the reported values only, not on the order they came in. */
  lemma ClusterIsOrderFree(a: seq<real>, b: seq<real>)
    requires multiset(a) == multiset(b)
    ensures Cluster(a) == Cluster(b)
  {
    SortIsOrderFree(a, b);
    assert |multiset(a)| == |a| && |multiset(b)| == |b|;
  }
}
