/**
 The publish path: reconcile the fetched snapshots by quorum, pass the gates, write one object per
 currency (internal/fx/publish.go, internal/fx/quorum.go, internal/fx/crossrate.go).
 The network fetch and the date parser are parameters.
 */
module Publisher {
  import opened Floats
  import opened Names
  import opened Quorum

  datatype SourceSnapshot = SourceSnapshot(source: string, date: string, rates: map<string, real>)

  // ---- votes ---------------------------------------------------------------------

  /** What one source says about a currency: nothing, or one positive value. */
  function Vote(snap: SourceSnapshot, code: string): seq<real> {
    if code in snap.rates && snap.rates[code] > 0.0 then [snap.rates[code]] else []
  }

  function Votes(snaps: seq<SourceSnapshot>, code: string): seq<real> {
    if snaps == [] then [] else Votes(snaps[..|snaps| - 1], code) + Vote(snaps[|snaps| - 1], code)
  }

  /** A source votes once for each currency it lists at a positive rate, with that rate, and for no other. */
  lemma VoteIsPositiveRate(snap: SourceSnapshot, code: string, rate: real)
    ensures Vote(snap, code) == [rate] <==> code in snap.rates && snap.rates[code] == rate && rate > 0.0
    ensures Vote(snap, code) == [] <==> code !in snap.rates || snap.rates[code] <= 0.0
  {
    if Vote(snap, code) == [rate] { assert Vote(snap, code)[0] == rate; }
  }

  lemma VotesStep(snaps: seq<SourceSnapshot>, n: nat, code: string)
    requires n < |snaps|
    ensures Votes(snaps[..n + 1], code) == Votes(snaps[..n], code) + Vote(snaps[n], code)
  {
    assert snaps[..n + 1][..n] == snaps[..n];
  }

  lemma {:induction false} VotesPositive(snaps: seq<SourceSnapshot>, code: string)
    ensures AllPositive(Votes(snaps, code))
  {
    if snaps != [] { VotesPositive(snaps[..|snaps| - 1], code); }
  }

  /** `values` holds exactly the votes for `code`, and no entry when there are none. */
  ghost predicate Collected(values: map<string, seq<real>>, snaps: seq<SourceSnapshot>, code: string) {
    (code in values <==> Votes(snaps, code) != []) && (code in values ==> values[code] == Votes(snaps, code))
  }

  /** Part way through a snapshot: codes still pending have their votes up to `seen`, the others up to `next`. */
  ghost predicate CollectedAt(values: map<string, seq<real>>, pending: set<string>, seen: seq<SourceSnapshot>,
                              next: seq<SourceSnapshot>, code: string) {
    Collected(values, if code in pending then seen else next, code)
  }

  method CollectVotes(snaps: seq<SourceSnapshot>) returns (values: map<string, seq<real>>)
    ensures forall code :: Collected(values, snaps, code)
  {
    values := map[];
    ghost var seen: seq<SourceSnapshot> := [];
    for n := 0 to |snaps|
      invariant seen == snaps[..n]
      invariant forall code :: Collected(values, seen, code)
    {
      ghost var next := snaps[..n + 1];
      var pending := snaps[n].rates.Keys;
      forall code
        ensures Votes(next, code) == Votes(seen, code) + Vote(snaps[n], code)
        ensures CollectedAt(values, pending, seen, next, code)
      {
        VotesStep(snaps, n, code);
        assert Collected(values, seen, code);
      }
      while pending != {}
        invariant pending <= snaps[n].rates.Keys
        invariant forall code :: CollectedAt(values, pending, seen, next, code)
      {
        var code :| code in pending;
        ghost var values0, pending0 := values, pending;
        assert CollectedAt(values0, pending0, seen, next, code);
        pending := pending - {code};
        var v := snaps[n].rates[code];
        if v > 0.0 {
          values := values[code := (if code in values then values[code] else []) + [v]];
        }
        forall c ensures CollectedAt(values, pending, seen, next, c) {
          assert CollectedAt(values0, pending0, seen, next, c);
        }
      }
      forall code ensures Collected(values, next, code) { assert CollectedAt(values, pending, seen, next, code); }
      seen := next;
    }
    assert snaps[..|snaps|] == snaps;
  }

  // ---- reconciliation --------------------------------------------------------------

  datatype Reconciliation =
    | InvalidMinAgree
    | InsufficientSources
    | Reconciled(rates: map<string, real>, failed: seq<string>)

  ghost predicate Passes(snaps: seq<SourceSnapshot>, minAgree: int, code: string) {
    Votes(snaps, code) != [] && |Cluster(Votes(snaps, code))| >= minAgree
  }

  ghost predicate Fails(snaps: seq<SourceSnapshot>, minAgree: int, code: string) {
    Votes(snaps, code) != [] && |Cluster(Votes(snaps, code))| < minAgree
  }

  /** The value a passing currency gets: the median of its agreeing cluster. */
  ghost predicate HasRate(snaps: seq<SourceSnapshot>, code: string, rate: real) {
    Cluster(Votes(snaps, code)) != [] && rate == Median(Cluster(Votes(snaps, code)))
  }

  ghost predicate IsReconciled(snaps: seq<SourceSnapshot>, minAgree: int, rates: map<string, real>,
                               failed: seq<string>) {
    (forall code :: code in rates <==> Passes(snaps, minAgree, code)) &&
    (forall code :: code in rates ==> HasRate(snaps, code, rates[code])) &&
    Ascending(failed) &&
    (forall code :: code in failed <==> Fails(snaps, minAgree, code))
  }

  method Reconcile(snaps: seq<SourceSnapshot>, minAgree: int) returns (r: Reconciliation)
    ensures r == InvalidMinAgree <==> minAgree < 1
    ensures r == InsufficientSources <==> 1 <= minAgree && |snaps| < minAgree
    ensures r.Reconciled? ==> IsReconciled(snaps, minAgree, r.rates, r.failed)
  {
    hide Cluster, Median, Votes, Ascending, SortNames;
    if minAgree < 1 { return InvalidMinAgree; }
    if |snaps| < minAgree { return InsufficientSources; }
    var values := CollectVotes(snaps);
    forall code ensures code in values <==> Votes(snaps, code) != [] { assert Collected(values, snaps, code); }
    var rates: map<string, real>, failed: seq<string> := map[], [];
    var pending := values.Keys;
    while pending != {}
      invariant pending <= values.Keys
      invariant forall code :: code in rates <==> code !in pending && Passes(snaps, minAgree, code)
      invariant forall code :: code in rates ==> HasRate(snaps, code, rates[code])
      invariant Distinct(failed)
      invariant forall code :: code in failed <==> code !in pending && Fails(snaps, minAgree, code)
    {
      var code :| code in pending;
      assert Collected(values, snaps, code);
      pending := pending - {code};
      var agreeing := LargestAgreeingCluster(values[code]);
      if |agreeing| >= minAgree {
        rates := rates[code := Median(agreeing)];
      } else {
        DistinctAppend(failed, code);
        failed := failed + [code];
      }
    }
    SortNamesKeeps(failed);
    assert forall code :: code in SortNames(failed) <==> code in Elements(SortNames(failed));
    r := Reconciled(rates, SortNames(failed));
  }

  // ---- what a published rate is worth -------------------------------------------------

  /** The votes near `r`, in the order they came. */
  function NearPart(vals: seq<real>, r: real): seq<real> {
    if vals == [] then []
    else NearPart(vals[..|vals| - 1], r) + (if Near(vals[|vals| - 1], r) then [vals[|vals| - 1]] else [])
  }

  lemma {:induction false} NearPartCounts(vals: seq<real>, r: real, v: real)
    requires Near(v, r)
    ensures multiset(NearPart(vals, r))[v] == multiset(vals)[v]
  {
    hide Near;
    if vals != [] {
      NearPartCounts(vals[..|vals| - 1], r, v);
      assert vals == vals[..|vals| - 1] + [vals[|vals| - 1]];
    }
  }

  lemma NearPartHolds(vals: seq<real>, c: seq<real>, r: real)
    requires multiset(c) <= multiset(vals) && AllNear(c, r)
    ensures |c| <= |NearPart(vals, r)|
  {
    var p := NearPart(vals, r);
    forall v ensures multiset(c)[v] <= multiset(p)[v] {
      if v in c {
        var i :| 0 <= i < |c| && c[i] == v;
        assert NearAt(c, i, r);
        NearPartCounts(vals, r, v);
      }
    }
    assert multiset(c) <= multiset(p);
    assert |multiset(c)| == |c| && |multiset(p)| == |p|;
    assert multiset(p) == multiset(c) + (multiset(p) - multiset(c));
  }

  /** Source i voted within the tolerance of `r`. */
  predicate Supports(snaps: seq<SourceSnapshot>, code: string, r: real, i: int)
    requires 0 <= i < |snaps|
  {
    Vote(snaps[i], code) != [] && Near(Vote(snaps[i], code)[0], r)
  }

  function Supporters(snaps: seq<SourceSnapshot>, code: string, r: real): set<int> {
    set i | 0 <= i < |snaps| && Supports(snaps, code, r, i)
  }

  lemma NearPartAppend(votes: seq<real>, vote: seq<real>, r: real)
    requires |vote| <= 1
    ensures |NearPart(votes + vote, r)| == |NearPart(votes, r)| + (if vote != [] && Near(vote[0], r) then 1 else 0)
  {
    if vote == [] {
      assert votes + vote == votes;
    } else {
      assert (votes + vote)[..|votes|] == votes;
    }
  }

  lemma SupportersStep(snaps: seq<SourceSnapshot>, n: nat, code: string, r: real)
    requires n == |snaps| - 1
    ensures |Supporters(snaps, code, r)| ==
      |Supporters(snaps[..n], code, r)| + (if Supports(snaps, code, r, n) then 1 else 0)
  {
    var front := snaps[..n];
    forall i | 0 <= i < n ensures Supports(snaps, code, r, i) == Supports(front, code, r, i) {}
    if Supports(snaps, code, r, n) {
      assert Supporters(snaps, code, r) == Supporters(front, code, r) + {n};
    } else {
      assert Supporters(snaps, code, r) == Supporters(front, code, r);
    }
  }

  lemma {:induction false} SupportersCount(snaps: seq<SourceSnapshot>, code: string, r: real)
    ensures |Supporters(snaps, code, r)| == |NearPart(Votes(snaps, code), r)|
  {
    hide Supporters, NearPart;
    if snaps == [] {
      EmptyCounts(snaps, code, r);
    } else {
      var n := |snaps| - 1;
      SupportersCount(snaps[..n], code, r);
      SupportersStep(snaps, n, code, r);
      NearPartAppend(Votes(snaps[..n], code), Vote(snaps[n], code), r);
    }
  }

  lemma EmptyCounts(snaps: seq<SourceSnapshot>, code: string, r: real)
    requires snaps == []
    ensures |Supporters(snaps, code, r)| == |NearPart(Votes(snaps, code), r)|
  {
    assert Supporters(snaps, code, r) == {};
  }

  lemma {:induction false} VoteHasSource(snaps: seq<SourceSnapshot>, code: string, v: real) returns (i: int)
    requires v in Votes(snaps, code)
    ensures 0 <= i < |snaps| && Vote(snaps[i], code) == [v]
  {
    var n := |snaps| - 1;
    if v in Votes(snaps[..n], code) {
      i := VoteHasSource(snaps[..n], code, v);
    } else {
      i := n;
    }
  }

  lemma RateHasSupport(snaps: seq<SourceSnapshot>, minAgree: int, rates: map<string, real>, failed: seq<string>,
                       code: string)
    requires IsReconciled(snaps, minAgree, rates, failed) && code in rates
    ensures |Supporters(snaps, code, rates[code])| >= minAgree
  {
    hide Cluster, Median, Votes, Ascending;
    var vals := Votes(snaps, code);
    ClusterAgrees(vals);
    NearPartHolds(vals, Cluster(vals), rates[code]);
    SupportersCount(snaps, code, rates[code]);
  }

  /** Fault tolerance: with fewer than `minAgree` faulty sources, an honest one stands by every published rate. */
  lemma QuorumSafety(snaps: seq<SourceSnapshot>, minAgree: int, rates: map<string, real>, failed: seq<string>,
                     code: string, faulty: set<int>)
    requires IsReconciled(snaps, minAgree, rates, failed) && code in rates
    requires |faulty| < minAgree
    ensures exists i :: 0 <= i < |snaps| && i !in faulty && Supports(snaps, code, rates[code], i)
  {
    hide Cluster, Median, Votes, Ascending;
    RateHasSupport(snaps, minAgree, rates, failed, code);
    var s := Supporters(snaps, code, rates[code]);
    if s <= faulty { SubsetSize(s, faulty); }
    var i :| i in s && i !in faulty;
    assert Supports(snaps, code, rates[code], i);
  }

  /** A published rate lies between two reports, both within the tolerance of it. */
  lemma RateBetweenReports(snaps: seq<SourceSnapshot>, minAgree: int, rates: map<string, real>, failed: seq<string>,
                           code: string)
    returns (i: int, j: int)
    requires IsReconciled(snaps, minAgree, rates, failed) && code in rates
    ensures 0 <= i < |snaps| && 0 <= j < |snaps|
    ensures Supports(snaps, code, rates[code], i) && Supports(snaps, code, rates[code], j)
    ensures Vote(snaps[i], code)[0] <= rates[code] <= Vote(snaps[j], code)[0]
  {
    hide Cluster, Votes, Ascending;
    var vals := Votes(snaps, code);
    var c := Cluster(vals);
    ClusterAgrees(vals);
    SortOfSorted(c);
    MiddleBetween(c);
    assert NearAt(c, 0, rates[code]) && NearAt(c, |c| - 1, rates[code]);
    MemberByMultiset(c, vals, c[0]);
    MemberByMultiset(c, vals, c[|c| - 1]);
    i := VoteHasSource(snaps, code, c[0]);
    j := VoteHasSource(snaps, code, c[|c| - 1]);
  }

  lemma RatesArePositive(snaps: seq<SourceSnapshot>, minAgree: int, rates: map<string, real>, failed: seq<string>,
                         code: string)
    requires IsReconciled(snaps, minAgree, rates, failed) && code in rates
    ensures rates[code] > 0.0
  {
    hide Cluster, Votes, Ascending, Median;
    var i, j := RateBetweenReports(snaps, minAgree, rates, failed, code);
  }

  // ---- independence of completion order -------------------------------------------------

  function Without<T>(s: seq<T>, k: nat): seq<T>
    requires k < |s|
  {
    s[..k] + s[k + 1..]
  }

  lemma WithoutFront<T>(s: seq<T>, k: nat)
    requires k < |s| - 1
    ensures Without(s, k)[..|s| - 2] == Without(s[..|s| - 1], k) && Without(s, k)[|s| - 2] == s[|s| - 1]
  {}

  lemma {:induction false} RemoveVote(snaps: seq<SourceSnapshot>, code: string, k: nat)
    requires k < |snaps|
    ensures multiset(Votes(snaps, code)) == multiset(Votes(Without(snaps, k), code)) + multiset(Vote(snaps[k], code))
  {
    hide Vote, Votes;
    var n := |snaps| - 1;
    LastVote(snaps, code);
    if k == n {
      assert Without(snaps, k) == snaps[..n];
    } else {
      RemoveVote(snaps[..n], code, k);
      WithoutFront(snaps, k);
      LastVote(Without(snaps, k), code);
      hide Without;
    }
  }

  lemma LastVote(snaps: seq<SourceSnapshot>, code: string)
    requires snaps != []
    ensures Votes(snaps, code) == Votes(snaps[..|snaps| - 1], code) + Vote(snaps[|snaps| - 1], code)
    ensures multiset(Votes(snaps, code)) ==
      multiset(Votes(snaps[..|snaps| - 1], code)) + multiset(Vote(snaps[|snaps| - 1], code))
  {
  }

  lemma {:induction false} VotesOrderFree(a: seq<SourceSnapshot>, b: seq<SourceSnapshot>, code: string)
    requires multiset(a) == multiset(b)
    ensures multiset(Votes(a, code)) == multiset(Votes(b, code))
  {
    if a == [] {
      assert |multiset(b)| == |b|;
    } else {
      var n := |a| - 1;
      assert a == a[..n] + [a[n]];
      assert a[n] in multiset(b);
      var k :| 0 <= k < |b| && b[k] == a[n];
      var rest := Without(b, k);
      assert b == b[..k] + [b[k]] + b[k + 1..];
      assert multiset(rest) == multiset(b) - multiset{b[k]};
      VotesOrderFree(a[..n], rest, code);
      RemoveVote(b, code, k);
    }
  }

  /** Rates and failed list are a function of which snapshots arrived, not of when. */
  lemma ReconcileOrderFree(a: seq<SourceSnapshot>, b: seq<SourceSnapshot>, minAgree: int,
                           ra: map<string, real>, fa: seq<string>, rb: map<string, real>, fb: seq<string>)
    requires multiset(a) == multiset(b)
    requires IsReconciled(a, minAgree, ra, fa) && IsReconciled(b, minAgree, rb, fb)
    ensures ra == rb && fa == fb
  {
    hide Cluster, Median, Votes, Ascending;
    forall code
      ensures Passes(a, minAgree, code) == Passes(b, minAgree, code)
      ensures Fails(a, minAgree, code) == Fails(b, minAgree, code)
      ensures Cluster(Votes(a, code)) == Cluster(Votes(b, code))
    {
      VotesOrderFree(a, b, code);
      ClusterIsOrderFree(Votes(a, code), Votes(b, code));
      assert |multiset(Votes(a, code))| == |Votes(a, code)| && |multiset(Votes(b, code))| == |Votes(b, code)|;
    }
    forall code | code in ra
      ensures code in rb && ra[code] == rb[code]
    {
      assert HasRate(a, code, ra[code]) && HasRate(b, code, rb[code]);
    }
    assert forall code :: code in ra <==> code in rb;
    assert ra == rb;
    assert Elements(fa) == Elements(fb);
    AscendingUnique(fa, fb);
  }
}
