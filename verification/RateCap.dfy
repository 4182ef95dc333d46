/**
 The per-identity rate cap: one counter document per alias and fixed window, summed over the alias
 group (internal/firestore/store.go:351-418, cmd/ocr/spend_gate.go:188-210). Times are nanoseconds
 since the Unix epoch.
 */
module RateCap {
  import opened Wrappers
  import opened SpendStore

  type int64 = n: int | -0x8000_0000_0000_0000 <= n < 0x8000_0000_0000_0000

  const MAX_INT64 := 0x7fff_ffff_ffff_ffff

  const SECOND := 1_000_000_000

  /** The id joins identity and window start with a colon; see RateIdsAreDistinct. */
  datatype RateId = RateId(device: string, start: int)

  /** `None` is a count that is missing or not an integer. */
  type RateDocs = map<RateId, Option<int>>

  type Counts = map<string, Option<int>>

  lemma {:induction false} RateIdsAreDistinct(a: string, p: string, b: string, q: string)
    requires ':' !in p && ':' !in q && a + ":" + p == b + ":" + q
    ensures a == b && p == q
  {
    var s, t := a + ":" + p, b + ":" + q;
    assert s[|a|] == ':' && t[|b|] == ':' && |p| == |s| - |a| - 1 && |q| == |t| - |b| - 1;
    assert s[|a| + 1..] == p && t[|b| + 1..] == q;
    if |a| < |b| { assert false; }
    if |b| < |a| { assert false; }
    assert a == s[..|a|] && b == t[..|b|];
  }

  // ---- the sum of a group ------------------------------------------------------------

  function Value(c: Option<int>): nat {
    if c.Some? && c.value >= 0 then c.value else 0
  }

  ghost function Total(g: Counts): nat {
    if g == map[] then 0 else
      var a :| a in g;
      Value(g[a]) + Total(g - {a})
  }

  /** The sum does not depend on the order of the documents. */
  lemma {:induction false} TotalWithout(g: Counts, a: string)
    requires a in g
    ensures Total(g) == Value(g[a]) + Total(g - {a})
    decreases |g|
  {
    var b :| b in g && Total(g) == Value(g[b]) + Total(g - {b});
    if a != b {
      TotalWithout(g - {b}, a);
      TotalWithout(g - {a}, b);
      assert g - {b} - {a} == g - {a} - {b};
    }
  }

  lemma TotalUpdate(g: Counts, a: string, c: Option<int>)
    ensures Total(g[a := c]) == Total(g) - (if a in g then Value(g[a]) else 0) + Value(c)
  {
    TotalWithout(g[a := c], a);
    if a in g { TotalWithout(g, a); }
    assert g[a := c] - {a} == g - {a};
    if a !in g { assert g - {a} == g; }
  }

  predicate WellCounted(g: Counts) {
    forall a :: a in g ==> g[a].Some? && g[a].value >= 0
  }

  /** The whole sum still leaves room for one more. */
  ghost predicate Sound(g: Counts) { WellCounted(g) && Total(g) < MAX_INT64 }

  function Canonical(g: Counts, device: string): nat {
    if device in g then Value(g[device]) else 0
  }

  lemma CanonicalBelowTotal(g: Counts, device: string)
    ensures Canonical(g, device) <= Total(g)
  {
    if device in g { TotalWithout(g, device); }
  }

  /** `n >= max - count` at every document: the error does not depend on the order they come in. */
  method IncrementBody(all: Counts, device: string, captured: int64) returns (count: int64, ok: bool, canonical: int64)
    ensures ok <==> Sound(all)
    ensures ok ==> count == Total(all) + 1 && canonical == Canonical(all, device)
  {
    count := captured;
    count, canonical, ok := 0, 0, true;
    var pending := all;
    while pending != map[]
      invariant pending.Keys <= all.Keys && forall a :: a in pending ==> pending[a] == all[a]
      invariant Total(all) == count + Total(pending) && 0 <= count < MAX_INT64
      invariant forall a :: a in all && a !in pending ==> all[a].Some? && all[a].value >= 0
      invariant canonical == if device in pending then 0 else Canonical(all, device)
      decreases |pending|
    {
      var a :| a in pending;
      TotalWithout(pending, a);
      if all[a] == None || all[a].value < 0 || all[a].value >= MAX_INT64 - count { return 0, false, 0; }
      var n := all[a].value;
      count := count + n;
      if a == device { canonical := n; }
      pending := pending - {a};
    }
    CanonicalBelowTotal(all, device);
    count := count + 1;
  }

  ghost function RateGroup(docs: RateDocs, device: string, start: int): Counts {
    map a | a in IdentityGroup(device) && RateId(a, start) in docs :: docs[RateId(a, start)]
  }

  /** One committed increment: the new count of the group, or an error that changes nothing. */
  ghost predicate Increments(docs: RateDocs, device: string, start: int, docs': RateDocs, r: Option<int>) {
    var g := RateGroup(docs, device, start);
    if Sound(g)
    then r == Some(Total(g) + 1) && docs' == docs[RateId(device, start) := Some(Canonical(g, device) + 1)]
    else r == None && docs' == docs
  }

  // ---- windows --------------------------------------------------------------------------

  function Unix(t: nat): nat { t / SECOND }

  /** The window is cut to whole seconds; below one second every second is its own window. */
  function WindowStart(t: nat, window: int): nat {
    if window < SECOND then Unix(t) else
      var w := window / SECOND;
      Unix(t) / w * w
  }

  class FirestoreRateStore {
    var docs: RateDocs

    /** `aborted` are the snapshots of runs that did not commit. */
    method IncrementRate(device: string, now: nat, window: int, aborted: seq<RateDocs>) returns (r: Option<int>)
      modifies this
      ensures Increments(old(docs), device, WindowStart(now, window), docs, r)
    {
      hide IdentityGroup, WindowStart;
      var start := WindowStart(now, window);
      var aliases := IdentityAliases(device);
      var count, ok, canonical := 0, false, 0;
      for i := 0 to |aborted|
        invariant docs == old(docs)
      {
        var stale := map a | a in aliases && RateId(a, start) in aborted[i] :: aborted[i][RateId(a, start)];
        count, ok, canonical := IncrementBody(stale, device, count);
      }
      var all := map a | a in aliases && RateId(a, start) in docs :: docs[RateId(a, start)];
      assert all == RateGroup(docs, device, start);
      hide RateGroup;
      count, ok, canonical := IncrementBody(all, device, count);
      if !ok { return None; }
      CanonicalBelowTotal(all, device);
      docs := docs[RateId(device, start) := Some(canonical + 1)];
      return Some(count);
    }

    /** No count when the transaction failed. */
    method AllowRate(device: string, now: nat, window: int, limit: int64, aborted: seq<RateDocs>)
      returns (allowed: bool, count: Option<int>)
      modifies this
      ensures Increments(old(docs), device, WindowStart(now, window), docs, count)
      ensures allowed <==> count.Some? && count.value <= limit
    {
      count := IncrementRate(device, now, window, aborted);
      return count.Some? && count.value <= limit, count;
    }
  }

  // ---- at most `limit` in one window ----------------------------------------------------

  datatype Admission = Admission(device: string, at: nat, allowed: bool)

  ghost predicate Admits(docs: RateDocs, e: Admission, window: int, limit: int64, docs': RateDocs) {
    IsCanonical(e.device) &&
    exists r ::
      Increments(docs, e.device, WindowStart(e.at, window), docs', r) && e.allowed == (r.Some? && r.value <= limit)
  }

  ghost predicate RateRun(docs: seq<RateDocs>, events: seq<Admission>, window: int, limit: int64) {
    |docs| == |events| + 1 &&
    forall k :: 0 <= k < |events| ==> Admits(docs[k], events[k], window, limit, docs[k + 1])
  }

  /** How many of the first events of `device` in this window were let through. */
  function AdmittedIn(events: seq<Admission>, device: string, start: int, window: int): nat {
    if events == [] then 0 else
      var e := events[|events| - 1];
      AdmittedIn(events[..|events| - 1], device, start, window) +
      if e.device == device && WindowStart(e.at, window) == start && e.allowed then 1 else 0
  }

  /** Counters of other identities and other windows are other documents. */
  lemma OtherCountersUntouched(docs: RateDocs, other: string, start': int, docs': RateDocs, r: Option<int>,
                               device: string, start: int)
    requires Increments(docs, other, start', docs', r) && IsCanonical(other) && IsCanonical(device)
    requires other != device || start' != start
    ensures RateGroup(docs', device, start) == RateGroup(docs, device, start)
  {
    hide IdentityGroup, IsCanonical, Total;
    CanonicalIsOwnAlias(other);
    if other != device { IdentityGroupsDisjoint(other, device); }
  }

  lemma OwnCounter(docs: RateDocs, device: string, start: int, docs': RateDocs, r: Option<int>)
    requires Increments(docs, device, start, docs', r) && IsCanonical(device) && r.Some?
    ensures WellCounted(RateGroup(docs', device, start)) && Total(RateGroup(docs', device, start)) == r.value
  {
    hide IdentityGroup, IsCanonical, Total;
    var g := RateGroup(docs, device, start);
    CanonicalIsOwnAlias(device);
    CanonicalBelowTotal(g, device);
    assert RateGroup(docs', device, start) == g[device := Some(Canonical(g, device) + 1)];
    TotalUpdate(g, device, Some(Canonical(g, device) + 1));
  }

  /** The admitted calls of a window are all counted in it. */
  lemma {:induction false} AdmittedAreCounted(docs: seq<RateDocs>, events: seq<Admission>, window: int, limit: int64,
        device: string, start: int)
    requires RateRun(docs, events, window, limit) && IsCanonical(device)
    ensures var n := AdmittedIn(events, device, start, window);
      n == 0 || (n <= limit && n <= Total(RateGroup(docs[|events|], device, start)))
  {
    hide IdentityGroup, IsCanonical, Total, RateGroup, WindowStart, Increments;
    if events != [] {
      var k := |events| - 1;
      var e := events[k];
      AdmittedAreCounted(docs[..|events|], events[..k], window, limit, device, start);
      assert Admits(docs[k], e, window, limit, docs[k + 1]);
      var start' := WindowStart(e.at, window);
      var r :| Increments(docs[k], e.device, start', docs[k + 1], r) && e.allowed == (r.Some? && r.value <= limit);
      if e.device != device || start' != start {
        OtherCountersUntouched(docs[k], e.device, start', docs[k + 1], r, device, start);
      } else {
        IncrementTotal(docs[k], device, start, docs[k + 1], r);
      }
    }
  }

  lemma IncrementTotal(docs: RateDocs, device: string, start: int, docs': RateDocs, r: Option<int>)
    requires Increments(docs, device, start, docs', r) && IsCanonical(device)
    ensures r == None ==> docs' == docs
    ensures r.Some? ==> r.value == Total(RateGroup(docs, device, start)) + 1
    ensures r.Some? ==> r.value == Total(RateGroup(docs', device, start))
  {
    hide IdentityGroup, IsCanonical, Total, RateGroup;
    if r.Some? { OwnCounter(docs, device, start, docs', r); }
  }

  lemma AtMostLimitPerWindow(docs: seq<RateDocs>, events: seq<Admission>, window: int, limit: int64, device: string,
                             start: int)
    requires RateRun(docs, events, window, limit) && IsCanonical(device) && limit > 0
    ensures AdmittedIn(events, device, start, window) <= limit
  {
    hide *;
    AdmittedAreCounted(docs, events, window, limit, device, start);
  }

  // ---- windows against intervals ----------------------------------------------------------

  predicate WholeWindow(window: int) { window < SECOND || window % SECOND == 0 }

  /** Three moments no further apart than the window fall in at most two buckets. */
  predicate TwoBuckets(t1: nat, t2: nat, t3: nat, window: int) {
    t1 <= t2 <= t3 <= t1 + window ==>
      WindowStart(t1, window) == WindowStart(t2, window) || WindowStart(t2, window) == WindowStart(t3, window)
  }

  lemma BucketIndex(u: nat, w: nat, k: nat)
    requires w > 0 && k * w <= u < (k + 1) * w
    ensures u / w == k
  {
    DivisionBounds(u, w);
    OneMultiple(u, w, u / w, k);
  }

  lemma DivisionBounds(u: nat, w: nat)
    requires w > 0
    ensures u / w >= 0 && u / w * w <= u < (u / w + 1) * w
  {
    assert u == u / w * w + u % w;
  }

  lemma OneMultiple(u: nat, w: nat, q: nat, k: nat)
    requires q * w <= u < (q + 1) * w && k * w <= u < (k + 1) * w
    ensures q == k
  {
    if q < k { MultiplesGrow(q + 1, k, w); }
    if k < q { MultiplesGrow(k + 1, q, w); }
  }

  lemma MultiplesGrow(a: nat, b: nat, w: nat)
    requires a <= b
    ensures a * w <= b * w
  {
  }

  lemma WholeWindowsNeedTwoBuckets(t1: nat, t2: nat, t3: nat, window: int)
    requires WholeWindow(window)
    ensures TwoBuckets(t1, t2, t3, window)
  {
    if t1 <= t2 <= t3 <= t1 + window && window >= SECOND {
      var w := window / SECOND;
      var u1, u2, u3 := Unix(t1), Unix(t2), Unix(t3);
      assert u1 <= u2 <= u3 <= u1 + w;
      ThreeUnits(u1, u2, u3, w);
    }
  }

  lemma ThreeUnits(u1: nat, u2: nat, u3: nat, w: nat)
    requires w > 0 && u1 <= u2 <= u3 <= u1 + w
    ensures u1 / w == u2 / w || u2 / w == u3 / w
  {
    var k := u1 / w;
    assert k * w <= u1 < (k + 1) * w && (k + 2) * w == (k + 1) * w + w;
    if u2 < (k + 1) * w { BucketIndex(u2, w, k); }
    else {
      BucketIndex(u2, w, k + 1);
      BucketIndex(u3, w, k + 1);
    }
  }

  /** A window with a fraction of a second meets three buckets: one end, the whole next one, one start. */
  lemma FractionNeedsThree(window: int) returns (t1: nat, t2: nat, t3: nat)
    requires !WholeWindow(window)
    ensures t1 <= t2 <= t3 <= t1 + window
    ensures WindowStart(t1, window) < WindowStart(t2, window) < WindowStart(t3, window)
  {
    var w := window / SECOND;
    t1, t2, t3 := w * SECOND - 1, w * SECOND, 2 * w * SECOND;
    assert Unix(t1) == w - 1 && Unix(t2) == w && Unix(t3) == 2 * w;
    BucketIndex(w - 1, w, 0);
    BucketIndex(w, w, 1);
    BucketIndex(2 * w, w, 2);
  }

  function AdmittedBetween(events: seq<Admission>, device: string, lo: nat, hi: nat): nat {
    if events == [] then 0 else
      var e := events[|events| - 1];
      AdmittedBetween(events[..|events| - 1], device, lo, hi) +
      if e.device == device && lo <= e.at <= hi && e.allowed then 1 else 0
  }

  lemma {:induction false} IntervalMeetsTwoBuckets(events: seq<Admission>, device: string, lo: nat, hi: nat,
        window: int)
    requires WholeWindow(window) && lo <= hi <= lo + window
    ensures AdmittedBetween(events, device, lo, hi) <=
      AdmittedIn(events, device, WindowStart(lo, window), window) +
      AdmittedIn(events, device, WindowStart(hi, window), window)
  {
    hide WindowStart;
    if events != [] {
      var e := events[|events| - 1];
      IntervalMeetsTwoBuckets(events[..|events| - 1], device, lo, hi, window);
      if lo <= e.at <= hi { WholeWindowsNeedTwoBuckets(lo, e.at, hi, window); }
    }
  }

  /** With a whole-second (or sub-second) window no interval as long as it admits more than twice the limit. */
  lemma AtMostTwiceLimit(docs: seq<RateDocs>, events: seq<Admission>, window: int, limit: int64, device: string,
                         lo: nat, hi: nat)
    requires RateRun(docs, events, window, limit) && IsCanonical(device) && limit > 0
    requires WholeWindow(window) && lo <= hi <= lo + window
    ensures AdmittedBetween(events, device, lo, hi) <= 2 * limit
  {
    hide *;
    IntervalMeetsTwoBuckets(events, device, lo, hi, window);
    AtMostLimitPerWindow(docs, events, window, limit, device, WindowStart(lo, window));
    AtMostLimitPerWindow(docs, events, window, limit, device, WindowStart(hi, window));
  }

  /** One admission into an untouched counter. */
  lemma FirstIsAdmitted(docs: RateDocs, device: string, at: nat, window: int) returns (docs': RateDocs)
    requires IsCanonical(device) && forall id :: id in docs ==> id.start != WindowStart(at, window)
    ensures Admits(docs, Admission(device, at, true), window, 1, docs')
    ensures forall id :: id in docs' ==> id in docs || id.start == WindowStart(at, window)
  {
    hide IdentityGroup, IsCanonical, WindowStart;
    var start := WindowStart(at, window);
    assert RateGroup(docs, device, start) == map[];
    docs' := docs[RateId(device, start) := Some(1)];
    assert Increments(docs, device, start, docs', Some(1));
  }

  /** Otherwise three calls in an interval as long as the window all pass a limit of one. */
  lemma FractionAdmitsThree(device: string, window: int)
    returns (docs: seq<RateDocs>, events: seq<Admission>, lo: nat, hi: nat)
    requires IsCanonical(device) && !WholeWindow(window)
    ensures RateRun(docs, events, window, 1) && lo <= hi <= lo + window && AdmittedBetween(events, device, lo, hi) == 3
  {
    hide IsCanonical, WindowStart, Admits;
    var t1, t2, t3 := FractionNeedsThree(window);
    lo, hi := t1, t3;
    var d1 := FirstIsAdmitted(map[], device, t1, window);
    var d2 := FirstIsAdmitted(d1, device, t2, window);
    var d3 := FirstIsAdmitted(d2, device, t3, window);
    docs := [map[], d1, d2, d3];
    events := [Admission(device, t1, true), Admission(device, t2, true), Admission(device, t3, true)];
    assert events[..2][..1] == events[..1] && events[..1][..0] == [];
    assert AdmittedBetween(events[..1], device, lo, hi) == 1;
    assert AdmittedBetween(events[..2], device, lo, hi) == 2;
  }

  /** The bound of twice the limit holds of every run exactly for these windows. */
  ghost predicate TwiceLimitHolds(window: int, limit: int64) {
    forall docs, events, device, lo: nat, hi: nat ::
      RateRun(docs, events, window, limit) && IsCanonical(device) && lo <= hi <= lo + window ==>
        AdmittedBetween(events, device, lo, hi) <= 2 * limit
  }

  lemma TwiceLimitIff(window: int)
    ensures (forall limit: int64 :: limit > 0 ==> TwiceLimitHolds(window, limit)) <==> WholeWindow(window)
  {
    hide IsCanonical, RateRun, AdmittedBetween, WholeWindow;
    if WholeWindow(window) {
      forall limit: int64, docs, events, device, lo: nat, hi: nat
        | limit > 0 && RateRun(docs, events, window, limit) && IsCanonical(device) && lo <= hi <= lo + window
        ensures AdmittedBetween(events, device, lo, hi) <= 2 * limit
      {
        AtMostTwiceLimit(docs, events, window, limit, device, lo, hi);
      }
    } else {
      var device := "soft:unknown";
      SoftIsCanonical();
      var docs, events, lo, hi := FractionAdmitsThree(device, window);
      assert !TwiceLimitHolds(window, 1);
    }
  }

  lemma SoftIsCanonical()
    ensures IsCanonical("soft:unknown")
  {
    assert "soft:unknown"[0] != ATTEST_PREFIX[0];
  }

  // ---- the in-memory counter ---------------------------------------------------------------

  type Rates = map<RateId, int64>

  /** Adding one to a machine integer. */
  function PlusOne(n: int64): int64 { if n == MAX_INT64 then -0x8000_0000_0000_0000 else n + 1 }

  function Current(rates: Rates, id: RateId): int64 { if id in rates then rates[id] else 0 }

  class MemoryRateStore {
    var rates: Rates

    method AllowRate(device: string, now: nat, window: int, limit: int64) returns (allowed: bool, count: int64)
      modifies this
      ensures var id := RateId(device, WindowStart(now, window));
        count == PlusOne(Current(old(rates), id)) && rates == old(rates)[id := count] && allowed == (count <= limit)
    {
      var key := RateId(device, WindowStart(now, window));
      rates := rates[key := PlusOne(if key in rates then rates[key] else 0)];
      count := rates[key];
      return count <= limit, count;
    }
  }

  /** No legacy alias documents: the durable counters are exactly the ones in memory. */
  predicate SameRates(docs: RateDocs, rates: Rates) {
    docs.Keys == rates.Keys &&
    forall id :: id in docs ==> IsCanonical(id.device) && docs[id] == Some(rates[id]) && rates[id] >= 0
  }

  lemma GroupIsCounter(docs: RateDocs, rates: Rates, device: string, start: int)
    requires SameRates(docs, rates) && IsCanonical(device)
    ensures var g := RateGroup(docs, device, start);
      WellCounted(g) && Total(g) == Current(rates, RateId(device, start)) == Canonical(g, device)
  {
    hide IdentityGroup, IsCanonical;
    var g := RateGroup(docs, device, start);
    CanonicalIsOwnAlias(device);
    forall a | a in g ensures a == device {
      assert RateId(a, start) in docs;
      CanonicalIsOwnAlias(a);
      if a != device { IdentityGroupsDisjoint(a, device); }
    }
    if device in g {
      TotalWithout(g, device);
      assert g - {device} == map[];
    } else {
      assert g == map[];
    }
  }

  /** Both stores count alike exactly until the counter is full, where the durable one refuses and the other wraps. */
  lemma RatesAgreeIff(docs: RateDocs, rates: Rates, device: string, start: int, docs': RateDocs, r: Option<int>)
    requires SameRates(docs, rates) && IsCanonical(device) && Increments(docs, device, start, docs', r)
    ensures var id := RateId(device, start);
      var count := PlusOne(Current(rates, id));
      (r == Some(count) && SameRates(docs', rates[id := count])) <==> Current(rates, id) < MAX_INT64
  {
    hide IdentityGroup, IsCanonical, RateGroup, Total;
    GroupIsCounter(docs, rates, device, start);
  }

  /**
   A full counter is where they part: the durable store refuses and writes nothing, memory wraps to the
   least integer.
   */
  lemma FullCounterDiverges() returns (docs: RateDocs, rates: Rates, device: string)
    ensures SameRates(docs, rates) && IsCanonical(device) && Current(rates, RateId(device, 0)) == MAX_INT64
    ensures Increments(docs, device, 0, docs, None) && PlusOne(Current(rates, RateId(device, 0))) < 0
  {
    hide IdentityGroup, IsCanonical, Total, RateGroup;
    device := "soft:unknown";
    SoftIsCanonical();
    docs, rates := map[RateId(device, 0) := Some(MAX_INT64)], map[RateId(device, 0) := MAX_INT64];
    GroupIsCounter(docs, rates, device, 0);
  }

  // ---- whole sequences of counts ------------------------------------------------------------

  ghost predicate CountingRun(docs: seq<RateDocs>, ids: seq<RateId>, answers: seq<Option<int>>) {
    |docs| == |ids| + 1 && |answers| == |ids| &&
    forall k :: 0 <= k < |ids| ==>
      IsCanonical(ids[k].device) && Increments(docs[k], ids[k].device, ids[k].start, docs[k + 1], answers[k])
  }

  function MemoryCounts(rates: Rates, ids: seq<RateId>): seq<int64>
    decreases |ids|
  {
    if ids == [] then [] else
      var n := PlusOne(Current(rates, ids[0]));
      [n] + MemoryCounts(rates[ids[0] := n], ids[1..])
  }

  predicate NeverFull(rates: Rates, ids: seq<RateId>)
    decreases |ids|
  {
    ids == [] ||
    (Current(rates, ids[0]) < MAX_INT64 && NeverFull(rates[ids[0] := PlusOne(Current(rates, ids[0]))], ids[1..]))
  }

  /** On every sequence of calls that fills no counter, both stores give the same counts. */
  lemma {:induction false} CountersAgree(docs: seq<RateDocs>, rates: Rates, ids: seq<RateId>, answers: seq<Option<int>>)
    requires CountingRun(docs, ids, answers) && SameRates(docs[0], rates) && NeverFull(rates, ids)
    ensures |MemoryCounts(rates, ids)| == |ids|
    ensures forall k :: 0 <= k < |ids| ==> answers[k] == Some(MemoryCounts(rates, ids)[k])
    decreases |ids|
  {
    hide SameRates, Increments, IsCanonical;
    if ids != [] {
      RatesAgreeIff(docs[0], rates, ids[0].device, ids[0].start, docs[1], answers[0]);
      CountersAgree(docs[1..], rates[ids[0] := PlusOne(Current(rates, ids[0]))], ids[1..], answers[1..]);
    }
  }
}
