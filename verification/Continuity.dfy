/**
 Currency continuity over whole histories of publishes, and when the validator accepts the baseline a
 publish built (currscript.js:42-70, 502-615, 686-785, scripts/validate-package.js:139-152, 259-352).
 */
module Continuity {
  import opened Wrappers
  import opened Names
  import opened Calendar
  import opened Archive
  import opened Baseline

  // ---- the validator accepts the union and nothing else ----------------------------------------

  /** What a baseline's sources add up to. */
  lemma {:induction false} UnionOfMembers(sources: seq<Source>, c: string)
    ensures c in UnionOf(sources) <==> exists i :: 0 <= i < |sources| && c in Elements(sources[i].codes)
  {
    hide Elements;
    if sources != [] {
      var k := |sources| - 1;
      UnionOfMembers(sources[..k], c);
      forall i | 0 <= i < k ensures sources[..k][i] == sources[i] {}
      if i :| 0 <= i < k && c in Elements(sources[..k][i].codes) { assert c in Elements(sources[i].codes); }
      if i :| 0 <= i < |sources| && c in Elements(sources[i].codes) {
        assert i == k || c in Elements(sources[..k][i].codes);
      }
    }
  }

  lemma UnionIsLoaded(sources: seq<Source>, prior: Loaded, sameDay: Loaded)
    requires forall i :: 0 <= i < |sources| ==> sources[i].kind != Unknown
    requires SourceMatches(sources, LatestPrior, prior) && SourceMatches(sources, SameDay, sameDay)
    ensures UnionOf(sources) == CodesOf(prior) + CodesOf(sameDay)
  {
    hide Ascending, Elements;
    forall c ensures c in UnionOf(sources) <==> c in CodesOf(prior) + CodesOf(sameDay) {
      UnionOfMembers(sources, c);
      if c in CodesOf(prior) { var s :| s in sources && s.kind == LatestPrior; assert c in Elements(s.codes); }
      if c in CodesOf(sameDay) { var s :| s in sources && s.kind == SameDay; assert c in Elements(s.codes); }
      if i :| 0 <= i < |sources| && c in Elements(sources[i].codes) { assert sources[i] in sources; }
    }
  }

  /**
   The validator accepts exactly the baseline of the two snapshots it sees, when the candidate still has
   all its codes.
   */
  lemma AcceptsIff(b: Trusted, candidate: Rates, prior: Loaded, sameDay: Loaded)
    ensures Accepts(b, candidate, prior, sameDay) <==>
      IsBaseline(b, prior, sameDay) && (HasSource(b.sources, LatestPrior) <==> prior.Snapshot?) &&
      (HasSource(b.sources, SameDay) <==> sameDay.Snapshot?) &&
      CodesOf(prior) + CodesOf(sameDay) <= Available(candidate)
  {
    hide Ascending, UnionOf;
    if Accepts(b, candidate, prior, sameDay) {
      UnionIsLoaded(b.sources, prior, sameDay);
      forall s | s in b.sources ensures s.kind != Unknown { var i :| 0 <= i < |b.sources| && b.sources[i] == s; }
    }
    if IsBaseline(b, prior, sameDay) && (HasSource(b.sources, LatestPrior) <==> prior.Snapshot?) &&
       (HasSource(b.sources, SameDay) <==> sameDay.Snapshot?)
    {
      UnionIsLoaded(b.sources, prior, sameDay);
      forall i | 0 <= i < |b.sources| ensures Ascending(b.sources[i].codes) {
        var s := b.sources[i];
        assert s in b.sources && (s.kind == LatestPrior || s.kind == SameDay);
      }
    }
  }

  // ---- continuity ----------------------------------------------------------------------------------

  /** The archive a publish leaves behind. */
  function After(head: Files, today: Date, rates: Rates, remote: Files): Files {
    Filled(Pruned(head[today := Some(rates)], today, RETENTION_DAYS), today, RETENTION_DAYS, remote)
  }

  /** A committed publish, from one committed archive to the next. */
  ghost predicate Publishes(head: Files, today: Date, rates: Rates, remote: Files, head': Files) {
    (exists prior :: LoadsPrior(head, today, prior) && Passes(head, today, rates, prior)) &&
    head' == After(head, today, rates, remote)
  }

  predicate Passes(head: Files, today: Date, rates: Rates, prior: Loaded) {
    prior != Broken && LoadSameDay(head, today) != Broken && rates != map[] &&
    (forall c :: c in rates ==> rates[c] > 0.0) &&
    CodesOf(prior) + CodesOf(LoadSameDay(head, today)) <= Available(rates)
  }

  /** The archive ends with this publish. */
  ghost predicate EndsWith(head: Files, today: Date, rates: Rates) {
    today in head && head[today] == Some(rates) && forall d :: d in head ==> DayNumber(d) <= DayNumber(today)
  }

  lemma PublishEnds(head: Files, today: Date, rates: Rates, remote: Files, head': Files)
    requires Publishes(head, today, rates, remote, head')
    requires forall d :: d in head ==> DayNumber(d) <= DayNumber(today)
    ensures EndsWith(head', today, rates)
  {
    hide DayNumber, Earlier, LoadsPrior;
  }

  /** The next publish, on the same day or later, keeps every code of the last one. */
  lemma NextKeeps(head: Files, day: Date, rates: Rates, today: Date, rates': Rates, remote: Files, head': Files)
    requires EndsWith(head, day, rates) && DayNumber(day) <= DayNumber(today)
    requires Publishes(head, today, rates', remote, head')
    ensures rates.Keys <= rates'.Keys
  {
    var prior :| LoadsPrior(head, today, prior) && Passes(head, today, rates', prior);
    EarlierIsBefore(day, today);
    DaysFollowCalendar(day, today);
    if prior.Snapshot? { DaysFollowCalendar(prior.date, day); }
    hide DayNumber, Earlier, Sound;
  }

  /** Committed publishes one after another, on days that never go back. */
  ghost predicate History(heads: seq<Files>, days: seq<Date>, rates: seq<Rates>, remotes: seq<Files>) {
    |days| == |rates| == |remotes| && |heads| == |days| + 1 &&
    (forall k :: 0 <= k < |days| ==> Publishes(heads[k], days[k], rates[k], remotes[k], heads[k + 1])) &&
    (forall k :: 0 < k < |days| ==> InOrder(days, k)) &&
    (days != [] ==> forall d :: d in heads[0] ==> DayNumber(d) <= DayNumber(days[0]))
  }

  predicate InOrder(days: seq<Date>, k: int)
    requires 0 < k < |days|
  {
    DayNumber(days[k - 1]) <= DayNumber(days[k])
  }

  lemma {:induction false} HistoryEnds(heads: seq<Files>, days: seq<Date>, rates: seq<Rates>, remotes: seq<Files>,
                                       k: nat)
    requires History(heads, days, rates, remotes) && k < |days|
    ensures EndsWith(heads[k + 1], days[k], rates[k])
  {
    hide DayNumber, Publishes;
    if k > 0 {
      HistoryEnds(heads, days, rates, remotes, k - 1);
      assert InOrder(days, k);
    }
    assert Publishes(heads[k], days[k], rates[k], remotes[k], heads[k + 1]);
    PublishEnds(heads[k], days[k], rates[k], remotes[k], heads[k + 1]);
  }

  /** The published currency set never shrinks, whatever the network backfills in between. */
  lemma {:induction false} CurrenciesNeverShrink(heads: seq<Files>, days: seq<Date>, rates: seq<Rates>,
        remotes: seq<Files>, i: nat, j: nat)
    requires History(heads, days, rates, remotes) && i <= j < |days|
    ensures rates[i].Keys <= rates[j].Keys
    decreases j
  {
    hide DayNumber, Publishes;
    if i < j {
      CurrenciesNeverShrink(heads, days, rates, remotes, i, j - 1);
      HistoryEnds(heads, days, rates, remotes, j - 1);
      assert InOrder(days, j);
      assert Publishes(heads[j], days[j], rates[j], remotes[j], heads[j + 1]);
      NextKeeps(heads[j], days[j - 1], rates[j - 1], days[j], rates[j], remotes[j], heads[j + 1]);
    }
  }

  // ---- does the built baseline validate? -----------------------------------------------------------------

  /** The snapshot the manifest lists last before `today`. */
  ghost predicate SeesPrior(files: Files, today: Date, r: Loaded) {
    match r
    case Absent => forall d :: d in ListedDates(files, today) ==> !Earlier(d, today)
    case Snapshot(date, rates) =>
      date in ListedDates(files, today) && Earlier(date, today) && Load(files, date) == Some(rates) &&
      forall d :: d in ListedDates(files, today) && Earlier(d, today) ==> DayNumber(d) <= DayNumber(date)
    case Broken => false
  }

  lemma SeesOnePrior(files: Files, today: Date, r: Loaded, r': Loaded)
    requires SeesPrior(files, today, r) && SeesPrior(files, today, r')
    ensures r == r'
  {
    if r.Snapshot? && r'.Snapshot? { DaysFollowCalendar(r.date, r'.date); }
    hide DayNumber, Earlier, ListedDates;
  }

  /** The prior snapshot survives the pruning, and the network offers nothing between it and today. */
  predicate PriorStands(prior: Loaded, today: Date, remote: Files) {
    (prior.Snapshot? ==> DaysBetween(prior.date, today) < RETENTION_DAYS) &&
    forall d :: d in remote && Load(remote, d).Some? && InWindow(d, today, RETENTION_DAYS) ==>
      prior.Snapshot? && DayNumber(d) <= DayNumber(prior.date)
  }

  /** Before today, a publish leaves the retained old files and what the network filled in. */
  lemma AfterBefore(head: Files, today: Date, rates: Rates, remote: Files, d: Date)
    requires Earlier(d, today)
    ensures d in ListedDates(After(head, today, rates, remote), today) <==>
      InWindow(d, today, RETENTION_DAYS) && (Load(head, d).Some? || Load(remote, d).Some?)
    ensures InWindow(d, today, RETENTION_DAYS) && Load(head, d).Some? ==>
      Load(After(head, today, rates, remote), d) == Load(head, d)
  {
    EarlierIsBefore(d, today);
    EarlierIsBefore(today, d);
    assert d != today;
    hide Earlier, DayNumber;
    var saved := head[today := Some(rates)];
    assert Load(saved, d) == Load(head, d);
    FilledBefore(Pruned(saved, today, RETENTION_DAYS), today, remote, d);
    assert Load(Pruned(saved, today, RETENTION_DAYS), d) ==
      if DaysBetween(d, today) < RETENTION_DAYS then Load(head, d) else None;
    hide Filled, Pruned, Load;
  }

  lemma FilledBefore(files: Files, today: Date, remote: Files, d: Date)
    requires d != today && DaysBetween(d, today) > 0
    ensures Load(Filled(files, today, RETENTION_DAYS, remote), d) ==
      if Load(files, d) == None && InWindow(d, today, RETENTION_DAYS) then Load(remote, d) else Load(files, d)
  {
    hide DayNumber;
  }

  lemma StandingPriorIsSeen(head: Files, today: Date, rates: Rates, remote: Files, prior: Loaded)
    requires LoadsPrior(head, today, prior) && prior != Broken && PriorStands(prior, today, remote)
    ensures SeesPrior(After(head, today, rates, remote), today, prior)
  {
    var files := After(head, today, rates, remote);
    hide Sound, After;
    if prior.Snapshot? {
      EarlierIsBefore(prior.date, today);
      AfterBefore(head, today, rates, remote, prior.date);
    }
    forall d | d in ListedDates(files, today) && Earlier(d, today)
      ensures prior.Snapshot? && DayNumber(d) <= DayNumber(prior.date)
    {
      AfterBefore(head, today, rates, remote, d);
      hide Earlier, DayNumber, ListedDates;
    }
  }

  lemma SeenPriorStands(head: Files, today: Date, rates: Rates, remote: Files, prior: Loaded)
    requires LoadsPrior(head, today, prior) && SeesPrior(After(head, today, rates, remote), today, prior)
    ensures PriorStands(prior, today, remote)
  {
    hide Sound, After;
    if prior.Snapshot? {
      EarlierIsBefore(prior.date, today);
      AfterBefore(head, today, rates, remote, prior.date);
    }
    forall d | d in remote && Load(remote, d).Some? && InWindow(d, today, RETENTION_DAYS)
      ensures prior.Snapshot? && DayNumber(d) <= DayNumber(prior.date)
    {
      EarlierIsBefore(d, today);
      AfterBefore(head, today, rates, remote, d);
      hide Earlier, DayNumber, ListedDates;
    }
  }

  lemma SameSource(b: Trusted, prior: Loaded, seen: Loaded)
    requires NamesSource(b.sources, LatestPrior, prior) && NamesSource(b.sources, LatestPrior, seen)
    requires HasSource(b.sources, LatestPrior) <==> prior.Snapshot?
    requires HasSource(b.sources, LatestPrior) <==> seen.Snapshot?
    ensures prior.Snapshot? <==> seen.Snapshot?
    ensures prior.Snapshot? ==> prior.date == seen.date
  {
    hide Enumerates;
    if prior.Snapshot? { var s :| s in b.sources && s.kind == LatestPrior; }
  }

  /**
   The baseline a publish built passes the validator exactly when the prior snapshot it was built from is
   still the last one before today: not pruned away, and not overtaken by a day the network filled in.
   */
  lemma BuiltBaselineValidatesIff(head: Files, today: Date, rates: Rates, remote: Files, prior: Loaded, b: Trusted,
                                  seen: Loaded)
    requires LoadsPrior(head, today, prior) && Passes(head, today, rates, prior)
    requires IsBaseline(b, prior, LoadSameDay(head, today))
    requires HasSource(b.sources, LatestPrior) <==> prior.Snapshot?
    requires HasSource(b.sources, SameDay) <==> LoadSameDay(head, today).Snapshot?
    requires SeesPrior(After(head, today, rates, remote), today, seen)
    ensures Accepts(b, rates, seen, LoadSameDay(head, today)) <==> PriorStands(prior, today, remote)
  {
    var files, sameDay := After(head, today, rates, remote), LoadSameDay(head, today);
    AcceptsIff(b, rates, seen, sameDay);
    hide After, Accepts, LoadSameDay, PriorStands, Enumerates, LoadsPrior, HasSource, NamesSource, Sound;
    if PriorStands(prior, today, remote) {
      StandingPriorIsSeen(head, today, rates, remote, prior);
      SeesOnePrior(files, today, prior, seen);
    } else if Accepts(b, rates, seen, sameDay) {
      SameSource(b, prior, seen);
      SeenIsPrior(head, today, rates, remote, prior, seen);
      SeenPriorStands(head, today, rates, remote, prior);
    }
  }

  lemma SeenIsPrior(head: Files, today: Date, rates: Rates, remote: Files, prior: Loaded, seen: Loaded)
    requires LoadsPrior(head, today, prior) && prior != Broken
    requires SeesPrior(After(head, today, rates, remote), today, seen)
    requires prior.Snapshot? <==> seen.Snapshot?
    requires prior.Snapshot? ==> prior.date == seen.date
    ensures seen == prior
  {
    hide After, Sound;
    if prior.Snapshot? { AfterBefore(head, today, rates, remote, prior.date); }
    hide ListedDates, Earlier, DayNumber;
  }

  /**
   It does fail: a day between the last publish and today that only the network knows overtakes the
   prior snapshot.
   */
  lemma BackfillOvertakes(day: Date, between: Date, today: Date, rates: Rates)
    requires Sound(rates) && DayNumber(day) < DayNumber(between) < DayNumber(today)
    requires DaysBetween(between, today) < RETENTION_DAYS
    ensures var head, prior := map[day := Some(rates)], Snapshot(day, rates);
      LoadsPrior(head, today, prior) && Passes(head, today, rates, prior) &&
      !PriorStands(prior, today, map[between := Some(rates)])
  {
    LonePriorLoads(day, today, rates);
    hide DayNumber, Earlier;
    assert Load(map[between := Some(rates)], between).Some?;
  }

  /** So does a pause longer than the retention: the prior snapshot is pruned by the publish that trusted it. */
  lemma PauseOutlastsRetention(day: Date, today: Date, rates: Rates)
    requires Sound(rates) && DaysBetween(day, today) >= RETENTION_DAYS
    ensures var head, prior := map[day := Some(rates)], Snapshot(day, rates);
      LoadsPrior(head, today, prior) && Passes(head, today, rates, prior) && !PriorStands(prior, today, map[])
  {
    LonePriorLoads(day, today, rates);
  }

  lemma LonePriorLoads(day: Date, today: Date, rates: Rates)
    requires Sound(rates) && DayNumber(day) < DayNumber(today)
    ensures var head, prior := map[day := Some(rates)], Snapshot(day, rates);
      LoadsPrior(head, today, prior) && Passes(head, today, rates, prior)
  {
    EarlierIsBefore(day, today);
    hide DayNumber, Earlier;
  }
}
