/**
 One publish run: fetch in completion order, gates, precomputed cross rates, object writes
 (internal/fx/publish.go:120-332, internal/fx/crossrate.go:34-56).
 */
module PublishRun {
  import opened Wrappers
  import opened Names
  import opened Quorum
  import opened Publisher

  /**
   `isFresh` says whether a snapshot date passes the staleness window (blank and unparseable dates do),
   `timeOf` is the time a date stands for, counted from the zero time, if it parses.
   */
  datatype PublishConfig = PublishConfig(minAgree: int, isFresh: string -> bool, timeOf: string -> Option<int>)

  datatype FetchResult = FetchFailed | Fetched(snap: SourceSnapshot)

  // ---- fetching ---------------------------------------------------------------------

  function UsableOf(r: FetchResult): seq<SourceSnapshot> {
    if r.Fetched? && r.snap.rates != map[] then [r.snap] else []
  }

  /** What survives of a list of results, in completion order. */
  function Usable(arrivals: seq<FetchResult>): seq<SourceSnapshot> {
    if arrivals == [] then [] else Usable(arrivals[..|arrivals| - 1]) + UsableOf(arrivals[|arrivals| - 1])
  }

  method FetchAll(arrivals: seq<FetchResult>) returns (snaps: seq<SourceSnapshot>)
    ensures snaps == Usable(arrivals)
  {
    snaps := [];
    for n := 0 to |arrivals|
      invariant snaps == Usable(arrivals[..n])
    {
      assert arrivals[..n + 1][..n] == arrivals[..n];
      var r := arrivals[n];
      if r.Fetched? && r.snap.rates != map[] {
        snaps := snaps + [r.snap];
      }
    }
    assert arrivals[..|arrivals|] == arrivals;
  }

  lemma {:induction false} RemoveUsable(arrivals: seq<FetchResult>, k: nat)
    requires k < |arrivals|
    ensures multiset(Usable(arrivals)) == multiset(Usable(Without(arrivals, k))) + multiset(UsableOf(arrivals[k]))
  {
    hide UsableOf, Usable;
    var n := |arrivals| - 1;
    LastUsable(arrivals);
    if k == n {
      assert Without(arrivals, k) == arrivals[..n];
    } else {
      RemoveUsable(arrivals[..n], k);
      WithoutFront(arrivals, k);
      LastUsable(Without(arrivals, k));
      hide Without;
    }
  }

  lemma LastUsable(arrivals: seq<FetchResult>)
    requires arrivals != []
    ensures var n := |arrivals| - 1;
      multiset(Usable(arrivals)) == multiset(Usable(arrivals[..n])) + multiset(UsableOf(arrivals[n]))
  {
  }

  lemma {:induction false} UsableOrderFree(a: seq<FetchResult>, b: seq<FetchResult>)
    requires multiset(a) == multiset(b)
    ensures multiset(Usable(a)) == multiset(Usable(b))
  {
    if a == [] {
      assert |multiset(b)| == |b|;
    } else {
      var n := |a| - 1;
      assert a == a[..n] + [a[n]];
      assert a[n] in multiset(b);
      var k :| 0 <= k < |b| && b[k] == a[n];
      assert b == b[..k] + [b[k]] + b[k + 1..];
      assert multiset(Without(b, k)) == multiset(b) - multiset{b[k]};
      UsableOrderFree(a[..n], Without(b, k));
      RemoveUsable(b, k);
    }
  }

  // ---- provenance -------------------------------------------------------------------

  function SourceNames(snaps: seq<SourceSnapshot>): set<string> {
    set s | s in snaps && s.source != "" :: s.source
  }

  method SnapshotSources(snaps: seq<SourceSnapshot>) returns (out: seq<string>)
    ensures Ascending(out) && Elements(out) == SourceNames(snaps)
  {
    hide Ascending, SortNames;
    var seen: set<string> := {};
    out := [];
    for n := 0 to |snaps|
      invariant Distinct(out) && Elements(out) == seen == SourceNames(snaps[..n])
    {
      ghost var before := snaps[..n];
      assert snaps[..n + 1] == before + [snaps[n]];
      var name := snaps[n].source;
      if name != "" && name !in seen {
        assert forall x :: x in Elements(out) <==> x in out;
        DistinctAppend(out, name);
        seen := seen + {name};
        out := out + [name];
      }
      assert seen == SourceNames(before) + (if name == "" then {} else {name});
    }
    assert snaps[..|snaps|] == snaps;
    SortNamesKeeps(out);
    out := SortNames(out);
  }

  // ---- gates ------------------------------------------------------------------------

  function FreshSnapshots(snaps: seq<SourceSnapshot>, isFresh: string -> bool): set<SourceSnapshot> {
    set s | s in snaps && isFresh(s.date)
  }

  datatype Gate =
    | Misconfigured
    | CoverageGate(available: seq<string>)
    | StaleGate
    | EmptyReconcile(sources: seq<string>)
    | Passed(sources: seq<string>, rates: map<string, real>, failed: seq<string>)

  ghost predicate NamesOf(names: seq<string>, snaps: set<SourceSnapshot>) {
    Ascending(names) && Elements(names) == set s | s in snaps && s.source != "" :: s.source
  }

  /** The gate a set of usable snapshots ends at. */
  ghost predicate GateIs(snaps: seq<SourceSnapshot>, cfg: PublishConfig, g: Gate) {
    var recent := FreshSnapshots(snaps, cfg.isFresh);
    if cfg.minAgree < 1 then g == Misconfigured
    else if |snaps| < cfg.minAgree then g.CoverageGate? && NamesOf(g.available, recent)
    else if recent == {} then g == StaleGate
    else match g {
      case EmptyReconcile(names) =>
        NamesOf(names, Elements(snaps)) && exists failed :: IsReconciled(snaps, cfg.minAgree, map[], failed)
      case Passed(names, rates, failed) =>
        NamesOf(names, Elements(snaps)) && rates != map[] && IsReconciled(snaps, cfg.minAgree, rates, failed)
      case _ => false
    }
  }

  method FreshOnly(snaps: seq<SourceSnapshot>, isFresh: string -> bool) returns (out: seq<SourceSnapshot>)
    ensures Elements(out) == FreshSnapshots(snaps, isFresh)
  {
    out := [];
    for n := 0 to |snaps|
      invariant Elements(out) == FreshSnapshots(snaps[..n], isFresh)
    {
      assert snaps[..n + 1] == snaps[..n] + [snaps[n]];
      if isFresh(snaps[n].date) {
        assert Elements(out + [snaps[n]]) == Elements(out) + {snaps[n]};
        out := out + [snaps[n]];
      }
    }
    assert snaps[..|snaps|] == snaps;
  }

  method RunGates(arrivals: seq<FetchResult>, cfg: PublishConfig) returns (g: Gate, snaps: seq<SourceSnapshot>)
    ensures GateIs(Usable(arrivals), cfg, g) && (g.Passed? ==> snaps == Usable(arrivals))
  {
    hide Cluster, Median, Votes, Ascending, Usable;
    if cfg.minAgree < 1 { return Misconfigured, []; }
    snaps := FetchAll(arrivals);
    var fetched := SnapshotSources(snaps);
    var freshSnaps := FreshOnly(snaps, cfg.isFresh);
    ElementsEmpty(freshSnaps);
    if |snaps| < cfg.minAgree {
      var available := SnapshotSources(freshSnaps);
      return CoverageGate(available), snaps;
    }
    if freshSnaps == [] { return StaleGate, snaps; }
    var r := Reconcile(snaps, cfg.minAgree);
    if r.rates == map[] { return EmptyReconcile(fetched), snaps; }
    return Passed(fetched, r.rates, r.failed), snaps;
  }

  /** The gate outcome, its rates, failed list and source list do not depend on completion order. */
  lemma GateOrderFree(a: seq<FetchResult>, b: seq<FetchResult>, cfg: PublishConfig, ga: Gate, gb: Gate)
    requires multiset(a) == multiset(b)
    requires GateIs(Usable(a), cfg, ga) && GateIs(Usable(b), cfg, gb)
    ensures ga == gb
  {
    hide Ascending, Usable, IsReconciled;
    UsableOrderFree(a, b);
    var sa, sb := Usable(a), Usable(b);
    SameElements(sa, sb);
    assert FreshSnapshots(sa, cfg.isFresh) == FreshSnapshots(sb, cfg.isFresh) by {
      assert forall s :: s in sa <==> s in Elements(sa);
      assert forall s :: s in sb <==> s in Elements(sb);
    }
    if ga.CoverageGate? {
      AscendingUnique(ga.available, gb.available);
    }
    if ga.Passed? || ga.EmptyReconcile? {
      AscendingUnique(ga.sources, gb.sources);
      var ra, rb := if ga.Passed? then ga.rates else map[], if gb.Passed? then gb.rates else map[];
      var fa := ReconciledFailures(sa, cfg, ga);
      var fb := ReconciledFailures(sb, cfg, gb);
      ReconcileOrderFree(sa, sb, cfg.minAgree, ra, fa, rb, fb);
    }
  }

  lemma ReconciledFailures(snaps: seq<SourceSnapshot>, cfg: PublishConfig, g: Gate) returns (failed: seq<string>)
    requires GateIs(snaps, cfg, g) && (g.Passed? || g.EmptyReconcile?)
    ensures IsReconciled(snaps, cfg.minAgree, if g.Passed? then g.rates else map[], failed)
    ensures g.Passed? ==> failed == g.failed
  {
    hide IsReconciled, Ascending;
    if g.Passed? { failed := g.failed; } else { failed :| IsReconciled(snaps, cfg.minAgree, map[], failed); }
  }

  // ---- cross rates and objects ----------------------------------------------------------

  datatype Quote = Refused | Quoted(rate: real)

  function CrossRate(rates: map<string, real>, from: string, to: string): Quote {
    if from == to then Quoted(1.0)
    else if from !in rates || to !in rates then Refused
    else if rates[from] <= 0.0 || rates[to] <= 0.0 then Refused
    else Quoted(rates[to] / rates[from])
  }

  /** EUR is the base of the table even when no source lists it. */
  function WithBase(rates: map<string, real>): map<string, real> {
    if "EUR" in rates then rates else rates["EUR" := 1.0]
  }

  predicate AllRatesPositive(rates: map<string, real>) {
    forall code :: code in rates ==> rates[code] > 0.0
  }

  /** Converting through a third currency, or there and back, agrees with converting directly. */
  lemma CrossRatesCompose(rates: map<string, real>, a: string, b: string, c: string)
    requires AllRatesPositive(rates) && a in rates && b in rates && c in rates
    ensures var ab, bc, ac := CrossRate(rates, a, b), CrossRate(rates, b, c), CrossRate(rates, a, c);
      ab.Quoted? && bc.Quoted? && ac.Quoted? && ab.rate * bc.rate == ac.rate
  {
    QuotientsCompose(rates[a], rates[b], rates[c]);
    if a == b { assert rates[b] / rates[a] == 1.0; }
    if b == c { assert rates[c] / rates[b] == 1.0; }
    if a == c { assert rates[c] / rates[a] == 1.0; }
  }

  lemma QuotientsCompose(x: real, y: real, z: real)
    requires x > 0.0 && y > 0.0 && z > 0.0
    ensures (y / x) * (z / y) == z / x
  {
    var p, q := y / x, z / y;
    assert y == p * x && z == q * y;
    assert z == (q * p) * x;
    assert z / x == q * p;
  }

  /** What every object of one publish carries. */
  datatype Stamp = Stamp(date: string, generatedAt: string, sources: seq<string>)

  datatype CurrencyObject = CurrencyObject(path: string, base: string, stamp: Stamp, rates: map<string, real>)

  function LowerAscii(s: string): string {
    seq(|s|, i requires 0 <= i < |s| => if 'A' <= s[i] <= 'Z' then s[i] - 'A' + 'a' else s[i])
  }

  function ObjectPath(code: string): string { "latest/" + LowerAscii(code) + ".min.json" }

  /** Two codes share an object exactly when they differ in letter case only. */
  lemma PathsCollideIff(a: string, b: string)
    ensures ObjectPath(a) == ObjectPath(b) <==> LowerAscii(a) == LowerAscii(b)
  {
    hide LowerAscii;
    var prefix, suffix := "latest/", ".min.json";
    var x, y := LowerAscii(a), LowerAscii(b);
    if ObjectPath(a) == ObjectPath(b) {
      assert |x| == |y|;
      assert x == ObjectPath(a)[|prefix|..|prefix| + |x|] && y == ObjectPath(b)[|prefix|..|prefix| + |y|];
    }
  }

  /** `low` is the text with its ASCII letters in lower case, everything else as it was. */
  predicate IsLowerCase(low: string, text: string) {
    |low| == |text| && forall i :: 0 <= i < |text| ==>
      if 'A' <= text[i] <= 'Z' then 'a' <= low[i] <= 'z' && low[i] as int - 'a' as int == text[i] as int - 'A' as int
      else low[i] == text[i]
  }

  predicate IsPath(path: string, code: string) {
    |path| == |code| + 16 && path[..7] == "latest/" && path[|code| + 7..] == ".min.json" &&
    IsLowerCase(path[7..|code| + 7], code)
  }

  lemma PathIsSpelled(code: string)
    ensures IsPath(ObjectPath(code), code)
  {
    var path, prefix, suffix := ObjectPath(code), "latest/", ".min.json";
    assert path == prefix + LowerAscii(code) + suffix && |prefix| == 7 && |suffix| == 9;
    assert path[..7] == prefix && path[|code| + 7..] == suffix && path[7..|code| + 7] == LowerAscii(code);
  }

  /** Units of a currency for one EUR; one when no source lists EUR itself. */
  function PerEuro(rates: map<string, real>, code: string): real { if code in rates then rates[code] else 1.0 }

  /** A unit worth `from` per euro buys `rate` units worth `to` per euro. */
  predicate Converts(rate: real, from: real, to: real) { rate * from == to }

  /** The table of one base currency. */
  predicate IsObject(o: CurrencyObject, rates: map<string, real>, from: string, stamp: Stamp) {
    IsPath(o.path, from) && o.base == from && o.stamp == stamp && o.rates.Keys == rates.Keys + {"EUR"} &&
    (from in o.rates ==> o.rates[from] == 1.0) &&
    forall to :: to in o.rates ==> Converts(o.rates[to], PerEuro(rates, from), PerEuro(rates, to))
  }

  /** One object per currency of the table, in ascending order of code. */
  ghost predicate IsObjectSet(objs: seq<CurrencyObject>, codes: seq<string>, rates: map<string, real>, stamp: Stamp) {
    Ascending(codes) && Elements(codes) == rates.Keys + {"EUR"} && |objs| == |codes| &&
    forall i :: 0 <= i < |objs| ==> IsObject(objs[i], rates, codes[i], stamp)
  }

  /** There is an EUR object; it carries exactly the reconciled rates whenever EUR itself is one. */
  lemma EuroObjectIsTable(objs: seq<CurrencyObject>, codes: seq<string>, rates: map<string, real>, stamp: Stamp)
    returns (o: CurrencyObject)
    requires IsObjectSet(objs, codes, rates, stamp)
    ensures o in objs && o.base == "EUR" && (PerEuro(rates, "EUR") == 1.0 ==> o.rates == rates["EUR" := 1.0])
  {
    hide Ascending, IsObject;
    assert "EUR" in Elements(codes);
    var i :| 0 <= i < |codes| && codes[i] == "EUR";
    o := objs[i];
    EuroTable(o, rates, stamp);
  }

  lemma EuroTable(o: CurrencyObject, rates: map<string, real>, stamp: Stamp)
    requires IsObject(o, rates, "EUR", stamp)
    ensures o.base == "EUR" && (PerEuro(rates, "EUR") == 1.0 ==> o.rates == rates["EUR" := 1.0])
  {
    hide IsPath, Converts;
    if PerEuro(rates, "EUR") == 1.0 {
      forall to | to in o.rates ensures o.rates[to] == rates["EUR" := 1.0][to] {
        assert Converts(o.rates[to], PerEuro(rates, "EUR"), PerEuro(rates, to));
        OneConverts(o.rates[to], PerEuro(rates, to));
      }
    }
  }

  lemma OneConverts(rate: real, to: real)
    ensures Converts(rate, 1.0, to) <==> rate == to
  {
  }

  lemma QuoteIsRatio(rates: map<string, real>, from: string, to: string)
    requires CrossRate(rates, from, to).Quoted?
    ensures from == to ==> CrossRate(rates, from, to).rate == 1.0
    ensures from in rates && to in rates ==> Converts(CrossRate(rates, from, to).rate, rates[from], rates[to])
  {
  }

  /** Every quote from this base is between positive rates. */
  predicate Quotable(base: map<string, real>, from: string)
    requires from in base
  {
    forall to :: to in base && to != from ==> base[from] > 0.0 && base[to] > 0.0
  }

  method BuildObject(base: map<string, real>, from: string, codes: seq<string>, stamp: Stamp)
    returns (ok: bool, o: CurrencyObject)
    requires Elements(codes) == base.Keys && from in base && "EUR" in base
    ensures ok ==> IsObject(o, base, from, stamp)
    ensures ok <==> Quotable(base, from)
  {
    hide CrossRate, IsPath, ObjectPath, Converts;
    PathIsSpelled(from);
    var objRates: map<string, real> := map[];
    for n := 0 to |codes|
      invariant objRates.Keys == Elements(codes[..n])
      invariant from in objRates ==> objRates[from] == 1.0
      invariant forall to :: to in objRates ==> to in base && Converts(objRates[to], base[from], base[to])
      invariant forall to :: to in codes[..n] && to != from ==> base[from] > 0.0 && base[to] > 0.0
    {
      assert codes[..n + 1] == codes[..n] + [codes[n]];
      assert codes[n] in Elements(codes);
      var q := CrossRate(base, from, codes[n]);
      QuotedIff(base, from, codes[n]);
      if q == Refused { return false, CurrencyObject(ObjectPath(from), from, stamp, map[]); }
      QuoteIsRatio(base, from, codes[n]);
      objRates := objRates[codes[n] := q.rate];
    }
    assert codes[..|codes|] == codes;
    return true, CurrencyObject(ObjectPath(from), from, stamp, objRates);
  }

  lemma QuotedIff(rates: map<string, real>, from: string, to: string)
    requires from in rates && to in rates
    ensures CrossRate(rates, from, to).Quoted? <==> from == to || (rates[from] > 0.0 && rates[to] > 0.0)
  {
  }

  /** A reconciled table never makes this fail: only a nonpositive rate does, beside another currency. */
  method PrecomputeObjects(rates: map<string, real>, stamp: Stamp)
    returns (ok: bool, objs: seq<CurrencyObject>, codes: seq<string>)
    ensures ok ==> IsObjectSet(objs, codes, rates, stamp)
    ensures ok <==> AllRatesPositive(rates) || rates.Keys <= {"EUR"}
  {
    hide Ascending, IsObject, ObjectPath, Quotable;
    var base := WithBase(rates);
    codes := SortedCodes(base.Keys);
    objs := [];
    for n := 0 to |codes|
      invariant |objs| == n
      invariant forall i :: 0 <= i < n ==> IsObject(objs[i], rates, codes[i], stamp)
      invariant forall i :: 0 <= i < n ==> codes[i] in base && Quotable(base, codes[i])
    {
      assert codes[n] in Elements(codes);
      var built, o := BuildObject(base, codes[n], codes, stamp);
      if !built {
        NotQuotable(rates, codes[n]);
        return false, [], codes;
      }
      SameObject(o, rates, codes[n], stamp);
      objs := objs + [o];
    }
    AllQuoted(rates, codes);
    return true, objs, codes;
  }

  lemma AllQuoted(rates: map<string, real>, codes: seq<string>)
    requires Elements(codes) == WithBase(rates).Keys
    requires forall i :: 0 <= i < |codes| ==> codes[i] in WithBase(rates) && Quotable(WithBase(rates), codes[i])
    ensures AllRatesPositive(rates) || rates.Keys <= {"EUR"}
  {
    var base := WithBase(rates);
    assert forall code :: code in codes <==> code in Elements(codes);
    if c :| c in rates && c != "EUR" {
      assert "EUR" in codes;
      var i :| 0 <= i < |codes| && codes[i] == "EUR";
      assert Quotable(base, "EUR") && c in base;
      forall code | code in rates ensures rates[code] > 0.0 { assert code in base && base[code] == rates[code]; }
    }
  }

  lemma NotQuotable(rates: map<string, real>, from: string)
    requires from in WithBase(rates) && !Quotable(WithBase(rates), from)
    ensures !AllRatesPositive(rates) && !(rates.Keys <= {"EUR"})
  {
    var base := WithBase(rates);
    var to :| to in base && to != from && !(base[from] > 0.0 && base[to] > 0.0);
    assert from in rates || to in rates;
  }

  /** Listing EUR at one or not at all makes no difference. */
  lemma SameObject(o: CurrencyObject, rates: map<string, real>, from: string, stamp: Stamp)
    requires IsObject(o, WithBase(rates), from, stamp) && from in WithBase(rates)
    ensures IsObject(o, rates, from, stamp)
  {
    hide IsPath;
    forall code | code in rates.Keys + {"EUR"} ensures PerEuro(WithBase(rates), code) == PerEuro(rates, code) {}
  }

  // ---- writing ---------------------------------------------------------------------------

  /** The artifact sink. A failed write may or may not have stored its object. */
  class ObjectStore {
    var objects: seq<CurrencyObject>
    /** How many writes were answered with an error. */
    ghost var failures: nat

    method WriteObject(o: CurrencyObject) returns (ok: bool)
      modifies this
      ensures ok ==> objects == old(objects) + [o]
      ensures !ok ==> objects == old(objects) || objects == old(objects) + [o]
      ensures failures == old(failures) + if ok then 0 else 1
    {
      ok := *;
      var stored: bool := *;
      if ok || stored { objects := objects + [o]; }
      if !ok { failures := failures + 1; }
    }
  }

  // ---- the publication date --------------------------------------------------------------

  /** The snapshot's date parses to a time after the zero time. */
  predicate Dated(s: SourceSnapshot, timeOf: string -> Option<int>) {
    s.date != "" && timeOf(s.date).Some? && timeOf(s.date).value > 0
  }

  /** The date of the first snapshot that has one. */
  function FirstDate(snaps: seq<SourceSnapshot>): string {
    if snaps == [] then "" else if FirstDate(snaps[..|snaps| - 1]) != "" then FirstDate(snaps[..|snaps| - 1])
    else snaps[|snaps| - 1].date
  }

  /** The latest of the dates that parse; when none does, the first date there is. */
  ghost predicate IsPublicationDate(snaps: seq<SourceSnapshot>, timeOf: string -> Option<int>, date: string) {
    if exists s :: s in snaps && Dated(s, timeOf)
    then (exists s :: s in snaps && Dated(s, timeOf) && s.date == date) &&
      forall s :: s in snaps && Dated(s, timeOf) ==> timeOf(s.date).value <= timeOf(date).value
    else date == FirstDate(snaps)
  }

  method ReconciledDate(snaps: seq<SourceSnapshot>, timeOf: string -> Option<int>) returns (date: string)
    ensures IsPublicationDate(snaps, timeOf, date)
  {
    var best, bestRaw, fallback := 0, "", "";
    for n := 0 to |snaps|
      invariant fallback == FirstDate(snaps[..n])
      invariant if bestRaw == "" then best == 0 && forall s :: s in snaps[..n] ==> !Dated(s, timeOf)
        else timeOf(bestRaw) == Some(best) && exists s :: s in snaps[..n] && Dated(s, timeOf) && s.date == bestRaw
      invariant forall s :: s in snaps[..n] && Dated(s, timeOf) ==> timeOf(s.date).value <= best
    {
      var snap := snaps[n];
      assert snaps[..n + 1] == snaps[..n] + [snap];
      assert snap in snaps[..n + 1];
      if snap.date != "" {
        if fallback == "" { fallback := snap.date; }
        var time := timeOf(snap.date);
        if time.Some? && time.value > best { best, bestRaw := time.value, snap.date; }
      }
    }
    assert snaps[..|snaps|] == snaps;
    return if bestRaw != "" then bestRaw else fallback;
  }

  /** Two orders of the same snapshots may publish different spellings of the date, but not different times. */
  lemma DateOrderFree(a: seq<SourceSnapshot>, b: seq<SourceSnapshot>, timeOf: string -> Option<int>, da: string,
                      db: string)
    requires multiset(a) == multiset(b) && IsPublicationDate(a, timeOf, da) && IsPublicationDate(b, timeOf, db)
    requires exists s :: s in a && Dated(s, timeOf)
    ensures timeOf(da).Some? && timeOf(da) == timeOf(db)
  {
    SameElements(a, b);
    assert forall s :: (s in a <==> s in Elements(a)) && (s in b <==> s in Elements(b));
  }

  // ---- the run ------------------------------------------------------------------------------

  datatype PublishOutcome =
    | GateClosed(gate: Gate)
    | NilWriter
    | PrecomputeFailed
    | WriteFailed(gate: Gate)
    | Published(gate: Gate, date: string, count: nat)

  /** The objects of a publish through a passed gate. */
  ghost predicate IsPublication(arrivals: seq<FetchResult>, cfg: PublishConfig, g: Gate, generatedAt: string,
                                date: string, objs: seq<CurrencyObject>) {
    g.Passed? && GateIs(Usable(arrivals), cfg, g) && IsPublicationDate(Usable(arrivals), cfg.timeOf, date) &&
    exists codes :: IsObjectSet(objs, codes, g.rates, Stamp(date, generatedAt, g.sources))
  }

  /** A closed gate writes nothing; a reconciled table always precomputes; success writes every object. */
  method PublishLatest(arrivals: seq<FetchResult>, cfg: PublishConfig, w: ObjectStore?, generatedAt: string)
    returns (r: PublishOutcome)
    modifies w
    ensures r.GateClosed? ==>
      !r.gate.Passed? && GateIs(Usable(arrivals), cfg, r.gate) && (w != null ==> w.objects == old(w.objects))
    ensures r == NilWriter <==> w == null && cfg.minAgree >= 1
    ensures r != PrecomputeFailed
    ensures r.Published? || r.WriteFailed? ==> w != null
    ensures w != null ==> w.failures == old(w.failures) + if r.WriteFailed? then 1 else 0
    ensures r.Published? ==> exists objs ::
      IsPublication(arrivals, cfg, r.gate, generatedAt, r.date, objs) && w.objects == old(w.objects) + objs &&
      r.count == |objs|
    ensures r.WriteFailed? ==> exists objs, date, k: nat ::
      IsPublication(arrivals, cfg, r.gate, generatedAt, date, objs) && k <= |objs| &&
      w.objects == old(w.objects) + objs[..k]
  {
    hide Ascending, IsReconciled, IsObjectSet, Usable, IsPublicationDate;
    if w == null && cfg.minAgree >= 1 { return NilWriter; }
    var g, snaps := RunGates(arrivals, cfg);
    if !g.Passed? { return GateClosed(g); }
    PassedRatesPositive(Usable(arrivals), cfg, g);
    var date := ReconciledDate(snaps, cfg.timeOf);
    var ok, objs, codes := PrecomputeObjects(g.rates, Stamp(date, generatedAt, g.sources));
    if !ok { return PrecomputeFailed; }
    assert IsPublication(arrivals, cfg, g, generatedAt, date, objs);
    hide IsPublication, GateIs;
    for n := 0 to |objs|
      invariant w.objects == old(w.objects) + objs[..n] && w.failures == old(w.failures)
    {
      assert objs[..n + 1] == objs[..n] + [objs[n]];
      var written := w.WriteObject(objs[n]);
      if !written {
        assert w.objects == old(w.objects) + objs[..n] || w.objects == old(w.objects) + objs[..n + 1];
        return WriteFailed(g);
      }
    }
    assert objs[..|objs|] == objs;
    return Published(g, date, |objs|);
  }

  lemma PassedRatesPositive(snaps: seq<SourceSnapshot>, cfg: PublishConfig, g: Gate)
    requires GateIs(snaps, cfg, g) && g.Passed?
    ensures AllRatesPositive(g.rates)
  {
    hide IsReconciled, Ascending;
    forall code | code in g.rates ensures g.rates[code] > 0.0 {
      RatesArePositive(snaps, cfg.minAgree, g.rates, g.failed, code);
    }
  }
}
