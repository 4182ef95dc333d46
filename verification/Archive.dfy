/**
 The snapshot archive of one publish: save, prune, fill the window, list, count the gaps
 (currscript.js:61-78, 377-416, 447-473, 617-649, 955-980, scripts/validate-package.js:223-234).
 File names are ISO dates, compared as strings.
 */
module Archive {
  import opened Wrappers
  import opened Names
  import opened Sorting
  import opened Calendar

  const MAX_ARCHIVE_DAYS := 400

  const RETENTION_DAYS := 400

  type Rates = map<string, real>

  /** A stored file; None is one that does not load as a non-empty snapshot of its own date. */
  type Files = map<Date, Option<Rates>>

  predicate Earlier(a: Date, b: Date) { LexLess(Iso(a), Iso(b)) }

  lemma EarlierIsBefore(a: Date, b: Date)
    ensures Earlier(a, b) <==> DayNumber(a) < DayNumber(b)
  {
    IsoFollowsCalendar(a, b);
  }

  function Load(files: Files, d: Date): Option<Rates> {
    if d in files && files[d].Some? && files[d].value != map[] then files[d] else None
  }

  method LoadSnapshot(files: Files, d: Date) returns (rates: Option<Rates>)
    ensures rates == Load(files, d)
  {
    if d !in files { return None; }
    rates := files[d];
    if rates.Some? && |rates.value| == 0 { rates := None; }
  }

  // ---- sorted dates ---------------------------------------------------------------------

  /** No date comes before its predecessor. */
  predicate Sorted(s: seq<Date>) {
    |s| <= 1 || (DayNumber(s[0]) <= DayNumber(s[1]) && Sorted(s[1..]))
  }

  predicate NotLater(a: Date, b: Date) { !Earlier(b, a) }

  function SortDates(s: seq<Date>): seq<Date> { SortBy(NotLater, s) }

  lemma {:induction false} ChainIsSorted(s: seq<Date>)
    requires Chain(NotLater, s)
    ensures Sorted(s)
  {
    hide Earlier, DayNumber;
    if |s| > 1 {
      EarlierIsBefore(s[1], s[0]);
      ChainIsSorted(s[1..]);
    }
  }

  lemma NotLaterIsTotal(a: Date, b: Date)
    ensures NotLater(a, b) || NotLater(b, a)
  {
    hide DayNumber;
    EarlierIsBefore(a, b);
    EarlierIsBefore(b, a);
    hide Earlier;
  }

  lemma SortDatesKeeps(s: seq<Date>)
    ensures Sorted(SortDates(s)) && multiset(SortDates(s)) == multiset(s)
  {
    hide Earlier, NotLater, Sorted;
    forall i, j | 0 <= i < j < |s| ensures Comparable(NotLater, s[i], s[j]) { NotLaterIsTotal(s[i], s[j]); }
    SortByKeeps(NotLater, s);
    ChainIsSorted(SortDates(s));
  }

  lemma {:induction false} HeadIsEarliest(s: seq<Date>, d: Date)
    requires Sorted(s) && d in s
    ensures DayNumber(s[0]) <= DayNumber(d) <= DayNumber(s[|s| - 1])
  {
    hide DayNumber;
    if |s| > 1 {
      assert s == [s[0]] + s[1..];
      HeadIsEarliest(s[1..], if d in s[1..] then d else s[1]);
    }
  }

  // ---- the gap count ----------------------------------------------------------------------

  /** Days without a snapshot between neighbours. */
  function GapAfter(a: Date, b: Date): nat { if DaysBetween(a, b) > 1 then DaysBetween(a, b) - 1 else 0 }

  function Gaps(s: seq<Date>): nat {
    if |s| <= 1 then 0 else GapAfter(s[0], s[1]) + Gaps(s[1..])
  }

  lemma {:induction false} GapsAppend(s: seq<Date>, d: Date)
    requires s != []
    ensures Gaps(s + [d]) == Gaps(s) + GapAfter(s[|s| - 1], d)
  {
    if |s| == 1 {
      assert (s + [d])[1..] == [d];
    } else {
      assert (s + [d])[1..] == s[1..] + [d];
      GapsAppend(s[1..], d);
    }
  }

  /** Every day of the span either has a snapshot or is counted as a gap. */
  lemma {:induction false} GapsConserveDays(s: seq<Date>)
    requires Sorted(s) && s != []
    ensures Gaps(s) + |Elements(s)| == DaysBetween(s[0], s[|s| - 1]) + 1
  {
    if |s| == 1 {
      assert Elements(s) == {s[0]};
    } else {
      GapsConserveDays(s[1..]);
      hide DayNumber;
      assert s == [s[0]] + s[1..];
      DaysFollowCalendar(s[0], s[1]);
      if s[0] == s[1] {
        assert Elements(s) == Elements(s[1..]);
      } else {
        if s[0] in s[1..] { HeadIsEarliest(s[1..], s[0]); }
        assert Elements(s) == Elements(s[1..]) + {s[0]};
      }
    }
  }

  datatype Manifest = Manifest(earliest: Option<Date>, latest: Option<Date>, available: seq<Date>, gapCount: nat,
                               supported: seq<string>)

  lemma GapsStep(s: seq<Date>, i: nat)
    requires 0 < i < |s|
    ensures Gaps(s[..i + 1]) == Gaps(s[..i]) + GapAfter(s[i - 1], s[i])
  {
    hide Gaps, GapAfter;
    GapsAppend(s[..i], s[i]);
    assert s[..i] + [s[i]] == s[..i + 1];
  }

  lemma SortedSpan(dates: seq<Date>, sorted: seq<Date>)
    requires sorted == SortDates(dates)
    ensures Sorted(sorted) && multiset(sorted) == multiset(dates) && |sorted| == |dates|
    ensures dates != [] ==> Gaps(sorted) + |Elements(dates)| == DaysBetween(sorted[0], sorted[|sorted| - 1]) + 1
  {
    SortDatesKeeps(dates);
    assert |multiset(sorted)| == |multiset(dates)|;
    SameElements(sorted, dates);
    hide SortDates, DayNumber, Gaps;
    if dates != [] { GapsConserveDays(sorted); }
  }

  method CountGaps(sorted: seq<Date>) returns (gapCount: nat)
    ensures gapCount == Gaps(sorted)
  {
    assert |sorted| > 0 ==> Gaps(sorted[..1]) == 0;
    hide DayNumber;
    gapCount := 0;
    var index := 1;
    while index < |sorted|
      invariant 1 <= index && (sorted != [] ==> index <= |sorted| && gapCount == Gaps(sorted[..index]))
      invariant sorted == [] ==> gapCount == 0
    {
      var previous, current := sorted[index - 1], sorted[index];
      var diffDays := DaysBetween(previous, current);
      GapsStep(sorted, index);
      if diffDays > 1 { gapCount := gapCount + diffDays - 1; }
      index := index + 1;
    }
    if sorted != [] { assert sorted[..|sorted|] == sorted; }
  }

  method BuildManifest(availableDates: seq<Date>, latestRates: Rates) returns (m: Manifest)
    ensures Enumerates(m.supported, latestRates.Keys)
    ensures Sorted(m.available) && multiset(m.available) == multiset(availableDates)
    ensures m.gapCount == Gaps(m.available)
    ensures availableDates == [] ==> m.earliest == None && m.latest == None && m.gapCount == 0
    ensures availableDates != [] ==>
      m.available != [] && m.earliest == Some(m.available[0]) && m.latest == Some(m.available[|m.available| - 1])
    ensures availableDates != [] ==>
      m.gapCount + |Elements(availableDates)| == DaysBetween(m.earliest.value, m.latest.value) + 1
  {
    var sorted := SortDates(availableDates);
    SortedSpan(availableDates, sorted);
    hide SortDates, DayNumber, Sorted, Elements, Enumerates;
    var gapCount := CountGaps(sorted);
    var supported := SortedCodes(latestRates.Keys);
    if |sorted| == 0 { return Manifest(None, None, sorted, gapCount, supported); }
    return Manifest(Some(sorted[0]), Some(sorted[|sorted| - 1]), sorted, gapCount, supported);
  }

  // ---- one publish --------------------------------------------------------------------------

  /** Strictly before `today`, and less than `days` before it. */
  predicate InWindow(d: Date, today: Date, days: nat) {
    0 < DaysBetween(d, today) < days
  }

  lemma WindowDay(d: Date, today: Date, k: nat)
    requires DayNumber(today) >= k
    ensures d == DaysBefore(today, k) <==> DaysBetween(d, today) == k
  {
    DaysBeforeNumber(today, k);
    DaysFollowCalendar(d, DaysBefore(today, k));
  }

  /** A day the archive cannot serve and the network can. */
  predicate Fetched(files: Files, d: Date, today: Date, days: nat, remote: Files) {
    InWindow(d, today, days) && Load(files, d) == None && Load(remote, d).Some?
  }

  /** What the window fill leaves behind. */
  function Filled(files: Files, today: Date, days: nat, remote: Files): Files {
    map d | d in files.Keys + remote.Keys && (d in files || Fetched(files, d, today, days, remote)) ::
      if Fetched(files, d, today, days, remote) then remote[d] else files[d]
  }

  /** The snapshots a manifest lists: loadable, and not dated after `latest`. */
  predicate Listed(files: Files, latest: Date, d: Date) { d in files && !Earlier(latest, d) && Load(files, d).Some? }

  lemma OneMore(all: set<Date>, pending: set<Date>, d: Date)
    requires pending <= all && d in pending
    ensures multiset(all - (pending - {d})) == multiset(all - pending) + multiset{d}
  {
    assert all - (pending - {d}) == (all - pending) + {d};
  }

  method SortedOf(dates: set<Date>) returns (s: seq<Date>)
    ensures Sorted(s) && multiset(s) == multiset(dates)
  {
    hide Sorted, SortDates;
    s := [];
    var pending := dates;
    while pending != {}
      invariant pending <= dates && multiset(s) == multiset(dates - pending)
    {
      var d :| d in pending;
      OneMore(dates, pending, d);
      s := s + [d];
      pending := pending - {d};
    }
    assert dates - pending == dates;
    SortDatesKeeps(s);
    s := SortDates(s);
  }

  /** Every date is after the ones before it. */
  predicate Rising(s: seq<Date>) { forall i, j :: 0 <= i < j < |s| ==> DayNumber(s[i]) < DayNumber(s[j]) }

  lemma ListedRise(dates: seq<Date>, all: set<Date>)
    requires Sorted(dates) && multiset(dates) == multiset(all)
    ensures Rising(dates) && forall d :: d in dates <==> d in all
  {
    hide Sorted, DayNumber;
    forall d ensures d in dates <==> d in all { assert d in dates <==> d in multiset(dates); }
    forall i, j | 0 <= i < j < |dates| ensures DayNumber(dates[i]) < DayNumber(dates[j]) {
      SortedAt(dates, i, j);
      CountedTwice(dates, i, j);
      DaysFollowCalendar(dates[i], dates[j]);
    }
  }

  lemma RisingTail(dates: seq<Date>)
    requires Rising(dates) && dates != []
    ensures Rising(dates[1..]) && dates[0] !in dates[1..]
    ensures |dates| > 1 ==> DayNumber(dates[0]) <= DayNumber(dates[1])
  {
    hide DayNumber;
    var rest := dates[1..];
    forall i | 0 <= i < |rest| ensures rest[i] != dates[0] { assert DayNumber(dates[0]) < DayNumber(dates[i + 1]); }
  }

  lemma HeadAndRest(dates: seq<Date>, all: set<Date>)
    requires dates != [] && dates[0] !in dates[1..] && forall d :: d in dates <==> d in all
    ensures forall d :: d in dates[1..] <==> d in all - {dates[0]}
    ensures multiset(dates) == multiset{dates[0]} + multiset(dates[1..])
    ensures multiset(all) == multiset{dates[0]} + multiset(all - {dates[0]})
  {
    assert dates == [dates[0]] + dates[1..];
    assert forall d :: d in dates <==> d == dates[0] || d in dates[1..];
  }

  /** The other way round. */
  lemma {:induction false} RisingIsListed(dates: seq<Date>, all: set<Date>)
    requires Rising(dates) && forall d :: d in dates <==> d in all
    ensures Sorted(dates) && multiset(dates) == multiset(all)
  {
    hide DayNumber, Rising;
    if dates == [] {
      assert all == {};
    } else {
      RisingTail(dates);
      HeadAndRest(dates, all);
      RisingIsListed(dates[1..], all - {dates[0]});
    }
  }

  lemma CountedTwice(s: seq<Date>, i: nat, j: nat)
    requires i < j < |s|
    ensures s[i] == s[j] ==> multiset(s)[s[i]] >= 2
  {
    assert s == s[..j] + s[j..];
    assert s[i] in s[..j] && s[j] in s[j..];
    assert multiset(s[..j])[s[i]] >= 1 && multiset(s[j..])[s[j]] >= 1;
  }

  lemma {:induction false} SortedAt(s: seq<Date>, i: nat, j: nat)
    requires Sorted(s) && i < j < |s|
    ensures DayNumber(s[i]) <= DayNumber(s[j])
  {
    hide DayNumber;
    if i == 0 { HeadIsEarliest(s, s[j]); } else { SortedAt(s[1..], i - 1, j - 1); }
  }

  /** The filter of the pruning. */
  method DatesBefore(dates: seq<Date>, limit: Date) returns (kept: seq<Date>)
    requires Rising(dates)
    ensures Rising(kept) && forall d :: d in kept <==> d in dates && Earlier(d, limit)
  {
    hide DayNumber, Earlier;
    kept := [];
    for i := 0 to |dates|
      invariant Rising(kept) && forall d :: d in kept <==> d in dates[..i] && Earlier(d, limit)
    {
      if Earlier(dates[i], limit) {
        forall k | 0 <= k < |kept| ensures DayNumber(kept[k]) < DayNumber(dates[i]) {
          assert kept[k] in dates[..i];
        }
        kept := kept + [dates[i]];
      }
    }
  }

  class SnapshotArchive {
    var files: Files

    method Save(d: Date, rates: Rates)
      modifies this
      ensures files == old(files)[d := Some(rates)]
    {
      files := files[d := Some(rates)];
    }

    method ListDates() returns (dates: seq<Date>)
      ensures Sorted(dates) && multiset(dates) == multiset(files.Keys)
    {
      dates := SortedOf(files.Keys);
    }

    method Prune(retentionDays: nat, latest: Date) returns (pruned: seq<Date>)
      requires retentionDays > 0 && DayNumber(latest) >= retentionDays - 1
      modifies this
      ensures files == Pruned(old(files), latest, retentionDays)
      ensures Rising(pruned) && forall d :: d in pruned <==> d in old(files) && DaysBetween(d, latest) >= retentionDays
    {
      var dates := ListDates();
      ListedRise(dates, files.Keys);
      var earliest := DaysBefore(latest, retentionDays - 1);
      PruneBoundary(latest, retentionDays);
      hide Sorted, Earlier, DayNumber, DaysBefore, Rising, DaysBetween;
      pruned := DatesBefore(dates, earliest);
      hide Pruned;
      RemoveAll(pruned);
      PrunedIs(old(files), latest, retentionDays, pruned);
    }

    method RemoveAll(dates: seq<Date>)
      modifies this
      ensures files == old(files) - Elements(dates)
    {
      for i := 0 to |dates|
        invariant files == old(files) - Elements(dates[..i])
      {
        assert dates[..i + 1] == dates[..i] + [dates[i]];
        assert Elements(dates[..i + 1]) == Elements(dates[..i]) + {dates[i]};
        files := files - {dates[i]};
      }
      assert dates[..|dates|] == dates;
    }

    /** `remote` is what the network would answer for each date. */
    method BuildWindow(today: Date, latestRates: Rates, retentionDays: nat, remote: Files)
      returns (window: map<Date, Rates>)
      requires DayNumber(today) >= retentionDays > 0
      modifies this
      ensures files == Filled(old(files), today, retentionDays, remote)
      ensures IsWindow(window, files, today, latestRates, retentionDays)
    {
      hide Filled, IsWindow, InWindow, Load, DaysBefore, DaysBetween;
      window := map[today := latestRates];
      FirstDay(files, today, remote, latestRates);
      var k := 1;
      while k < retentionDays
        invariant 1 <= k <= retentionDays
        invariant files == Filled(old(files), today, k, remote)
        invariant IsWindow(window, files, today, latestRates, k)
      {
        var date := DaysBefore(today, k);
        forall d ensures d == date <==> DaysBetween(d, today) == k { WindowDay(d, today, k); }
        FillDay(old(files), today, k, remote, date);
        ghost var before, shorter := files, window;
        if Load(remote, date).Some? { LoadSaved(files, date, remote); }
        var local := LoadSnapshot(files, date);
        if local.Some? {
          window := window[date := local.value];
        } else {
          var fetched := LoadSnapshot(remote, date);
          if fetched.Some? {
            window := window[date := fetched.value];
            files := files[date := fetched];
          }
        }
        WindowGrows(shorter, before, files, today, latestRates, k, date);
        k := k + 1;
      }
    }

    method LoadAll(latest: Date) returns (dates: seq<Date>)
      ensures Sorted(dates) && multiset(dates) == multiset(ListedDates(files, latest))
    {
      hide DayNumber, Earlier, Sorted, Load;
      var all := ListDates();
      ListedRise(all, files.Keys);
      dates := [];
      for i := 0 to |all|
        invariant Rising(dates) && forall d :: d in dates <==> d in all[..i] && Listed(files, latest, d)
      {
        if !Earlier(latest, all[i]) {
          var snapshot := LoadSnapshot(files, all[i]);
          if snapshot.Some? {
            forall k | 0 <= k < |dates| ensures DayNumber(dates[k]) < DayNumber(all[i]) { assert dates[k] in all[..i]; }
            dates := dates + [all[i]];
          }
        }
      }
      RisingIsListed(dates, ListedDates(files, latest));
    }

    /**
     Save, prune, fill, list. Whatever the archive held before, the manifest meets the validator's caps
     and accounts for every day of its span.
     */
    method Publish(today: Date, latestRates: Rates, remote: Files) returns (m: Manifest)
      requires latestRates != map[] && DayNumber(today) >= RETENTION_DAYS
      modifies this
      ensures files == Filled(Pruned(old(files)[today := Some(latestRates)], today, 400), today, 400, remote)
      ensures Sorted(m.available) && multiset(m.available) == multiset(ListedDates(files, today))
      ensures m.latest == Some(today) && m.earliest.Some?
      ensures |m.available| <= 400 && DaysBetween(m.earliest.value, today) + 1 <= 400
      ensures m.gapCount + |m.available| == DaysBetween(m.earliest.value, today) + 1
    {
      hide Filled, Pruned, DayNumber, Earlier, ListedDates;
      Save(today, latestRates);
      var _ := Prune(RETENTION_DAYS, today);
      var window := BuildWindow(today, latestRates, RETENTION_DAYS, remote);
      var dates := LoadAll(today);
      m := BuildManifest(dates, latestRates);
      ListedWithinCaps(old(files), files, today, latestRates, remote);
      ManifestCaps(files, today, dates, m);
    }
  }

  function ListedDates(files: Files, latest: Date): set<Date> { set d | d in files && Listed(files, latest, d) }

  lemma ListedWithinCaps(files: Files, files': Files, today: Date, latestRates: Rates, remote: Files)
    requires latestRates != map[]
    requires files' ==
      Filled(Pruned(files[today := Some(latestRates)], today, RETENTION_DAYS), today, RETENTION_DAYS, remote)
    ensures today in ListedDates(files', today)
    ensures forall d :: d in ListedDates(files', today) ==> 0 <= DaysBetween(d, today) < RETENTION_DAYS
  {
    EarlierIsBefore(today, today);
    assert today in files' && files'[today] == Some(latestRates) by { hide DayNumber, Earlier; }
    forall d | d in ListedDates(files', today) ensures 0 <= DaysBetween(d, today) < RETENTION_DAYS {
      EarlierIsBefore(today, d);
      hide DayNumber, Earlier;
    }
  }

  lemma ManifestCaps(files: Files, today: Date, dates: seq<Date>, m: Manifest)
    requires today in ListedDates(files, today)
    requires forall d :: d in ListedDates(files, today) ==> 0 <= DaysBetween(d, today) < RETENTION_DAYS
    requires multiset(dates) == multiset(ListedDates(files, today))
    requires Sorted(m.available) && multiset(m.available) == multiset(dates)
    requires dates != [] ==>
      m.available != [] && m.earliest == Some(m.available[0]) && m.latest == Some(m.available[|m.available| - 1])
    requires dates != [] ==> m.gapCount + |Elements(dates)| == DaysBetween(m.earliest.value, m.latest.value) + 1
    ensures m.latest == Some(today) && m.earliest.Some?
    ensures |m.available| <= MAX_ARCHIVE_DAYS && DaysBetween(m.earliest.value, today) + 1 <= MAX_ARCHIVE_DAYS
    ensures m.gapCount + |m.available| == DaysBetween(m.earliest.value, today) + 1
  {
    hide ListedDates;
    var listed := ListedDates(files, today);
    assert |multiset(dates)| == |multiset(listed)| == |listed|;
    assert |multiset(m.available)| == |m.available|;
    forall d ensures d in Elements(dates) <==> d in listed { assert d in multiset(dates) <==> d in multiset(listed); }
    assert Elements(dates) == listed;
    assert today in multiset(m.available);
    HeadIsEarliest(m.available, today);
    var last := m.available[|m.available| - 1];
    assert last in multiset(m.available) && m.available[0] in multiset(m.available);
    DaysFollowCalendar(last, today);
  }

  /** The files that are not older than the retention. */
  function Pruned(files: Files, latest: Date, retentionDays: nat): Files {
    map d | d in files && DaysBetween(d, latest) < retentionDays :: files[d]
  }

  lemma PrunedIs(files: Files, latest: Date, retentionDays: nat, gone: seq<Date>)
    requires forall d :: d in gone <==> d in files && DaysBetween(d, latest) >= retentionDays
    ensures files - Elements(gone) == Pruned(files, latest, retentionDays)
  {
    hide DaysBetween;
  }

  lemma PruneBoundary(latest: Date, retentionDays: nat)
    requires retentionDays > 0 && DayNumber(latest) >= retentionDays - 1
    ensures forall d :: Earlier(d, DaysBefore(latest, retentionDays - 1)) <==> DaysBetween(d, latest) >= retentionDays
  {
    var earliest := DaysBefore(latest, retentionDays - 1);
    DaysBeforeNumber(latest, retentionDays - 1);
    forall d ensures Earlier(d, earliest) <==> DaysBetween(d, latest) >= retentionDays {
      EarlierIsBefore(d, earliest);
    }
  }

  /** Today's rates, and for each day of the window whatever the archive can load. */
  ghost predicate IsWindow(window: map<Date, Rates>, files: Files, today: Date, latestRates: Rates, days: nat) {
    (forall d :: d in window <==> d == today || (InWindow(d, today, days) && Load(files, d).Some?)) &&
    (forall d :: d in window ==>
       window[d] == if d == today || Load(files, d) == None then latestRates else Load(files, d).value)
  }

  lemma FirstDay(files: Files, today: Date, remote: Files, latestRates: Rates)
    ensures Filled(files, today, 1, remote) == files
    ensures IsWindow(map[today := latestRates], files, today, latestRates, 1)
  {
    hide DayNumber;
  }

  lemma LoadSaved(files: Files, date: Date, remote: Files)
    requires Load(remote, date).Some?
    ensures forall d ::
      Load(files[date := Load(remote, date)], d) == if d == date then Load(remote, date) else Load(files, d)
  {
    var saved := files[date := Load(remote, date)];
    assert Load(remote, date).value != map[] && saved[date] == Load(remote, date);
    forall d ensures Load(saved, d) == if d == date then Load(remote, date) else Load(files, d) {}
  }

  /** One more day at the old end of the window, with what the archive says of it afterwards. */
  lemma WindowGrows(window: map<Date, Rates>, files: Files, files': Files, today: Date, latestRates: Rates, k: nat,
                    date: Date)
    requires IsWindow(window, files, today, latestRates, k) && k > 0
    requires forall d :: d == date <==> DaysBetween(d, today) == k
    requires forall d :: d != date ==> Load(files', d) == Load(files, d)
    ensures var window' := if Load(files', date).Some? then window[date := Load(files', date).value] else window;
      IsWindow(window', files', today, latestRates, k + 1)
  {
    hide DayNumber, Load;
    assert date != today;
  }

  /** Filling one more day changes at most that day. */
  lemma FillDay(files: Files, today: Date, k: nat, remote: Files, date: Date)
    requires forall d :: d == date <==> DaysBetween(d, today) == k
    requires k > 0
    ensures Load(Filled(files, today, k, remote), date) == Load(files, date)
    ensures Filled(files, today, k + 1, remote) ==
      if Load(files, date) == None && Load(remote, date).Some?
      then Filled(files, today, k, remote)[date := Load(remote, date)]
      else Filled(files, today, k, remote)
  {
    hide DayNumber;
  }
}
