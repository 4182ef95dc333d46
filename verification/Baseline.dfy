/**
 Currency continuity: the trusted baseline taken before a publish, the gate against it, and the
 validator's view of it afterwards (currscript.js:475-615, 686-699, 764-785,
 scripts/validate-package.js:139-152, 259-352, scripts/lib/sources.js:126-139). Tables are lower-cased
 when they are parsed, so codes here are lower case.
 */
module Baseline {
  import opened Wrappers
  import opened Names
  import opened Calendar
  import opened Archive

  const PRIMARY_MIN_CURRENCIES := 100

  const BASE_SELF_RATE_EPSILON := 0.000000001

  /** A trusted snapshot, no snapshot, or one that must not be trusted. */
  datatype Loaded = Absent | Snapshot(date: Date, rates: Rates) | Broken

  datatype Kind = LatestPrior | SameDay | Unknown

  datatype Source = Source(kind: Kind, date: Date, codes: seq<string>)

  datatype Trusted = Trusted(sources: seq<Source>, codes: seq<string>)

  /** At least a hundred currencies, all positive, with the euro at one. */
  predicate Sound(rates: Rates) {
    (forall c :: c in rates ==> rates[c] > 0.0) && |rates| >= 100 &&
    "eur" in rates && 0.999999999 <= rates["eur"] <= 1.000000001
  }

  lemma SameCount(kept: set<string>, all: set<string>)
    requires kept <= all
    ensures |kept| == |all| <==> kept == all
  {
    if kept != all {
      var c :| c in all && c !in kept;
      SubsetSize(kept, all - {c});
    }
  }

  method PositiveRates(raw: Rates) returns (kept: Rates)
    ensures kept.Keys == Available(raw) && forall c :: c in kept ==> kept[c] == raw[c]
  {
    kept := map[];
    var pending := raw.Keys;
    while pending != {}
      invariant pending <= raw.Keys
      invariant kept.Keys == Available(raw) - pending && forall c :: c in kept ==> kept[c] == raw[c]
    {
      var c :| c in pending;
      pending := pending - {c};
      if raw[c] > 0.0 { kept := kept[c := raw[c]]; }
    }
  }

  /** A rate that the normalisation drops shows in the count. */
  method NormalizeTrusted(raw: Rates) returns (sound: bool)
    ensures sound <==> Sound(raw)
  {
    var normalized := PositiveRates(raw);
    SameCount(normalized.Keys, raw.Keys);
    if |normalized| != |raw| { return false; }
    if |normalized| < PRIMARY_MIN_CURRENCIES { return false; }
    if "eur" !in normalized { return false; }
    var drift := normalized["eur"] - 1.0;
    return (if drift < 0.0 then -drift else drift) <= BASE_SELF_RATE_EPSILON;
  }

  function CodesOf(l: Loaded): set<string> { if l.Snapshot? then l.rates.Keys else {} }

  function Available(rates: Rates): set<string> { set c | c in rates && rates[c] > 0.0 }

  // ---- loading ------------------------------------------------------------------------------

  ghost predicate IsLatestBefore(files: Files, d: Date, today: Date) {
    d in files && Earlier(d, today) && forall e :: e in files && Earlier(e, today) ==> DayNumber(e) <= DayNumber(d)
  }

  /** The newest file before `today`, if there is one, must be loadable and sound. */
  ghost predicate LoadsPrior(files: Files, today: Date, r: Loaded) {
    match r
    case Absent => forall e :: e in files ==> !Earlier(e, today)
    case Snapshot(d, rates) => IsLatestBefore(files, d, today) && Load(files, d) == Some(rates) && Sound(rates)
    case Broken =>
      exists d :: IsLatestBefore(files, d, today) && (Load(files, d) == None || !Sound(Load(files, d).value))
  }

  method LoadPrior(files: Files, today: Date) returns (r: Loaded)
    ensures LoadsPrior(files, today, r)
  {
    hide Earlier, DayNumber, Sound, Load;
    var prior := set d | d in files && Earlier(d, today);
    var dates := SortedOf(prior);
    forall d ensures d in dates <==> d in prior { assert d in dates <==> d in multiset(dates); }
    assert forall e :: e in files && Earlier(e, today) ==> e in prior;
    if dates == [] { return Absent; }
    var date := dates[|dates| - 1];
    assert date in prior;
    forall e | e in prior ensures DayNumber(e) <= DayNumber(date) { HeadIsEarliest(dates, e); }
    assert IsLatestBefore(files, date, today);
    var raw := LoadSnapshot(files, date);
    if raw == None { return Broken; }
    var sound := NormalizeTrusted(raw.value);
    return if sound then Snapshot(date, raw.value) else Broken;
  }

  /** Read from the last commit, never from the working tree. */
  function LoadSameDay(head: Files, today: Date): Loaded {
    if today !in head then Absent
    else if head[today] == None || !Sound(head[today].value) then Broken
    else Snapshot(today, head[today].value)
  }

  method LoadCommitted(head: Files, today: Date) returns (r: Loaded)
    ensures r == LoadSameDay(head, today)
  {
    hide Sound;
    if today !in head { return Absent; }
    var raw := head[today];
    if raw == None { return Broken; }
    var sound := NormalizeTrusted(raw.value);
    if !sound { return Broken; }
    return Snapshot(today, raw.value);
  }

  // ---- building --------------------------------------------------------------------------------

  ghost predicate IsBaseline(b: Trusted, prior: Loaded, sameDay: Loaded) {
    Enumerates(b.codes, CodesOf(prior) + CodesOf(sameDay)) &&
    (forall s :: s in b.sources ==> s.kind != Unknown) &&
    (forall i, j :: 0 <= i < j < |b.sources| ==> b.sources[i].kind != b.sources[j].kind) &&
    NamesSource(b.sources, LatestPrior, prior) && NamesSource(b.sources, SameDay, sameDay)
  }

  /** The sources of this kind say exactly what was loaded. */
  ghost predicate NamesSource(sources: seq<Source>, kind: Kind, l: Loaded) {
    forall s :: s in sources && s.kind == kind ==> l.Snapshot? && s.date == l.date && Enumerates(s.codes, l.rates.Keys)
  }

  ghost predicate HasSource(sources: seq<Source>, kind: Kind) { exists s :: s in sources && s.kind == kind }

  method BuildBaseline(prior: Loaded, sameDay: Loaded) returns (b: Trusted)
    ensures IsBaseline(b, prior, sameDay)
    ensures HasSource(b.sources, LatestPrior) <==> prior.Snapshot?
    ensures HasSource(b.sources, SameDay) <==> sameDay.Snapshot?
  {
    hide Enumerates;
    var sources := [];
    if prior.Snapshot? {
      var codes := SortedCodes(prior.rates.Keys);
      sources := sources + [Source(LatestPrior, prior.date, codes)];
    }
    if sameDay.Snapshot? {
      var codes := SortedCodes(sameDay.rates.Keys);
      sources := sources + [Source(SameDay, sameDay.date, codes)];
    }
    var all := SortedCodes(CodesOf(prior) + CodesOf(sameDay));
    b := Trusted(sources, all);
    assert prior.Snapshot? ==> sources[0].kind == LatestPrior && sources[0] in sources;
    assert sameDay.Snapshot? ==> sources[|sources| - 1].kind == SameDay && sources[|sources| - 1] in sources;
  }

  datatype Entry = Entry(code: string, rate: real)

  /** The lower-cased codes with a positive rate. */
  function PositiveCodes(entries: seq<Entry>, lower: string -> string): set<string> {
    set e | e in entries && e.rate > 0.0 :: lower(e.code)
  }

  lemma OneMoreEntry(entries: seq<Entry>, i: nat, lower: string -> string)
    requires i < |entries|
    ensures PositiveCodes(entries[..i + 1], lower) ==
      PositiveCodes(entries[..i], lower) + if entries[i].rate > 0.0 then {lower(entries[i].code)} else {}
  {
    assert entries[..i + 1] == entries[..i] + [entries[i]];
  }

  /** Filter and lower-case, keep first occurrences, drop what the candidate has, sort. */
  method FindMissing(candidate: seq<Entry>, trusted: seq<Entry>, lower: string -> string) returns (missing: seq<string>)
    ensures Enumerates(missing, PositiveCodes(trusted, lower) - PositiveCodes(candidate, lower))
  {
    hide PositiveCodes, Distinct, SortNames, Ascending;
    var candidateCodes := PositiveSet(candidate, lower);
    var codes: seq<string> := [];
    NoEntries(lower);
    for i := 0 to |trusted|
      invariant Elements(codes) == PositiveCodes(trusted[..i], lower)
    {
      OneMoreEntry(trusted, i, lower);
      if trusted[i].rate > 0.0 {
        assert Elements(codes + [lower(trusted[i].code)]) == Elements(codes) + {lower(trusted[i].code)};
        codes := codes + [lower(trusted[i].code)];
      }
    }
    assert trusted[..|trusted|] == trusted;
    missing := FirstOf(codes, candidateCodes);
    SortNamesKeeps(missing);
    missing := SortNames(missing);
  }

  lemma NoEntries(lower: string -> string)
    ensures PositiveCodes([], lower) == {}
  {
  }

  method PositiveSet(entries: seq<Entry>, lower: string -> string) returns (codes: set<string>)
    ensures codes == PositiveCodes(entries, lower)
  {
    codes := {};
    for i := 0 to |entries|
      invariant codes == PositiveCodes(entries[..i], lower)
    {
      OneMoreEntry(entries, i, lower);
      if entries[i].rate > 0.0 { codes := codes + {lower(entries[i].code)}; }
    }
    assert entries[..|entries|] == entries;
  }

  /** The first occurrences that are not excluded, in order. */
  method FirstOf(codes: seq<string>, excluded: set<string>) returns (kept: seq<string>)
    ensures Distinct(kept) && Elements(kept) == Elements(codes) - excluded
  {
    kept := [];
    for i := 0 to |codes|
      invariant Distinct(kept) && Elements(kept) == Elements(codes[..i]) - excluded
    {
      assert codes[..i + 1] == codes[..i] + [codes[i]];
      assert Elements(codes[..i + 1]) == Elements(codes[..i]) + {codes[i]};
      if codes[i] !in codes[..i] && codes[i] !in excluded {
        assert codes[i] !in Elements(kept);
        DistinctAppend(kept, codes[i]);
        assert Elements(kept + [codes[i]]) == Elements(kept) + {codes[i]};
        kept := kept + [codes[i]];
      }
    }
    assert codes[..|codes|] == codes;
  }

  method EntriesOf(rates: Rates) returns (entries: seq<Entry>)
    ensures forall e :: e in entries <==> e.code in rates && rates[e.code] == e.rate
  {
    entries := [];
    var pending := rates.Keys;
    while pending != {}
      invariant pending <= rates.Keys
      invariant forall e :: e in entries <==> e.code in rates && e.code !in pending && rates[e.code] == e.rate
    {
      var c :| c in pending;
      pending := pending - {c};
      entries := entries + [Entry(c, rates[c])];
    }
  }

  /** The call of the gate and of the validator: every baseline code counts with rate one. */
  method MissingCodes(candidate: Rates, codes: seq<string>) returns (missing: seq<string>)
    ensures Enumerates(missing, Elements(codes) - Available(candidate))
  {
    hide Enumerates;
    var entries := EntriesOf(candidate);
    var trusted := seq(|codes|, i requires 0 <= i < |codes| => Entry(codes[i], 1.0));
    var lower := (c: string) => c;
    missing := FindMissing(entries, trusted, lower);
    assert PositiveCodes(entries, lower) == Available(candidate) by {
      forall c | c in Available(candidate)
        ensures c in PositiveCodes(entries, lower)
      {
        assert Entry(c, candidate[c]) in entries;
      }
    }
    assert PositiveCodes(trusted, lower) == Elements(codes) by {
      forall c | c in codes ensures c in PositiveCodes(trusted, lower) {
        var i :| 0 <= i < |codes| && codes[i] == c;
        assert trusted[i] == Entry(c, 1.0);
      }
    }
  }

  lemma DifferenceEmpty(a: set<string>, b: set<string>)
    ensures a - b == {} <==> a <= b
  {
    forall c | c in a && c !in b ensures c in a - b {}
  }

  /** The publish gate; `refused` are the other gates. It takes both snapshots before anything is written. */
  method Gate(files: Files, head: Files, today: Date, candidate: Rates, publishedDate: Date, refused: bool)
    returns (r: Option<Trusted>, ghost prior: Loaded)
    ensures LoadsPrior(files, today, prior)
    ensures r.Some? <==>
      prior != Broken && LoadSameDay(head, today) != Broken && candidate != map[] && !refused &&
      publishedDate == today && CodesOf(prior) + CodesOf(LoadSameDay(head, today)) <= Available(candidate)
    ensures r.Some? ==> IsBaseline(r.value, prior, LoadSameDay(head, today))
    ensures r.Some? ==> (HasSource(r.value.sources, LatestPrior) <==> prior.Snapshot?)
    ensures r.Some? ==> (HasSource(r.value.sources, SameDay) <==> LoadSameDay(head, today).Snapshot?)
  {
    var loaded := LoadPrior(files, today);
    prior := loaded;
    var sameDay := LoadCommitted(head, today);
    hide LoadsPrior, LoadSameDay, NamesSource, HasSource, Ascending;
    if loaded == Broken || sameDay == Broken { return None, prior; }
    var b := BuildBaseline(loaded, sameDay);
    if candidate == map[] { return None, prior; }
    var missing := MissingCodes(candidate, b.codes);
    ElementsEmpty(missing);
    DifferenceEmpty(Elements(b.codes), Available(candidate));
    if |missing| > 0 || refused || publishedDate != today { return None, prior; }
    return Some(b), prior;
  }

  // ---- the validator --------------------------------------------------------------------------------

  ghost function UnionOf(sources: seq<Source>): set<string> {
    if sources == [] then {} else UnionOf(sources[..|sources| - 1]) + Elements(sources[|sources| - 1].codes)
  }

  ghost predicate SourceMatches(sources: seq<Source>, kind: Kind, l: Loaded) {
    NamesSource(sources, kind, l) && (HasSource(sources, kind) <==> l.Snapshot?)
  }

  ghost predicate KindsOk(sources: seq<Source>) {
    (forall i :: 0 <= i < |sources| ==> sources[i].kind != Unknown && Ascending(sources[i].codes)) &&
    (forall i, j :: 0 <= i < j < |sources| ==> sources[i].kind != sources[j].kind)
  }

  ghost predicate Accepts(b: Trusted, candidate: Rates, prior: Loaded, sameDay: Loaded) {
    KindsOk(b.sources) && Enumerates(b.codes, UnionOf(b.sources)) &&
    SourceMatches(b.sources, LatestPrior, prior) && SourceMatches(b.sources, SameDay, sameDay) &&
    Elements(b.codes) <= Available(candidate)
  }

  /** A list equals its own normalisation exactly when it is sorted and free of duplicates. */
  predicate Normalized(codes: seq<string>) { Distinct(codes) && SortNames(codes) == codes }

  lemma {:induction false} AscendingIsDistinct(s: seq<string>)
    requires Ascending(s)
    ensures Distinct(s)
  {
    if s != [] {
      if s[0] in s[1..] { HeadIsLeast(s, s[0]); LexLessIrreflexive(s[0]); }
      AscendingIsDistinct(s[1..]);
    }
  }

  lemma NormalizedIff(codes: seq<string>)
    ensures Normalized(codes) <==> Ascending(codes)
  {
    if Ascending(codes) { AscendingIsDistinct(codes); }
    if Distinct(codes) { SortNamesKeeps(codes); }
    if Ascending(codes) { AscendingUnique(SortNames(codes), codes); }
  }

  method FindSource(sources: seq<Source>, kind: Kind) returns (r: Option<Source>)
    ensures r == None <==> !HasSource(sources, kind)
    ensures r.Some? ==> r.value in sources && r.value.kind == kind
  {
    for i := 0 to |sources|
      invariant forall k :: 0 <= k < i ==> sources[k].kind != kind
    {
      if sources[i].kind == kind { return Some(sources[i]); }
    }
    return None;
  }

  method SourcesOk(sources: seq<Source>) returns (ok: bool, codes: set<string>)
    ensures ok <==> KindsOk(sources)
    ensures ok ==> codes == UnionOf(sources)
  {
    hide Ascending, Normalized;
    var seenKinds: set<Kind> := {};
    codes := {};
    for i := 0 to |sources|
      invariant KindsOk(sources[..i]) && codes == UnionOf(sources[..i])
      invariant forall k :: 0 <= k < i ==> sources[k].kind in seenKinds
      invariant forall kind :: kind in seenKinds ==> exists k :: 0 <= k < i && sources[k].kind == kind
    {
      var source := sources[i];
      NormalizedIff(source.codes);
      assert sources[..i + 1][..i] == sources[..i] && sources[..i + 1][i] == source;
      if source.kind == Unknown || source.kind in seenKinds || !Normalized(source.codes) { return false, codes; }
      seenKinds := seenKinds + {source.kind};
      codes := codes + Elements(source.codes);
    }
    assert sources[..|sources|] == sources;
    return true, codes;
  }

  /** One expected snapshot against the one source of its kind. */
  method SourceFits(sources: seq<Source>, kind: Kind, l: Loaded) returns (ok: bool)
    requires KindsOk(sources) && l != Broken
    ensures ok <==> SourceMatches(sources, kind, l)
  {
    var source := FindSource(sources, kind);
    if l == Absent { return source == None; }
    if source == None || source.value.date != l.date { return false; }
    var codes := SortedCodes(l.rates.Keys);
    ok := source.value.codes == codes;
    if Enumerates(source.value.codes, l.rates.Keys) { AscendingUnique(source.value.codes, codes); }
    forall s | s in sources && s.kind == kind ensures s == source.value {}
  }

  method ValidateBaseline(b: Trusted, candidate: Rates, prior: Loaded, sameDay: Loaded) returns (ok: bool)
    requires prior != Broken && sameDay != Broken
    ensures ok <==> Accepts(b, candidate, prior, sameDay)
  {
    hide KindsOk, SourceMatches, Ascending, Normalized;
    var codes;
    ok, codes := SourcesOk(b.sources);
    if !ok { return false; }
    NormalizedIff(b.codes);
    if !Normalized(b.codes) { return false; }
    var expected := SortedCodes(codes);
    if Elements(b.codes) == codes { AscendingUnique(b.codes, expected); }
    if b.codes != expected { return false; }
    ok := SourceFits(b.sources, LatestPrior, prior);
    if !ok { return false; }
    ok := SourceFits(b.sources, SameDay, sameDay);
    if !ok { return false; }
    var missing := MissingCodes(candidate, b.codes);
    ElementsEmpty(missing);
    DifferenceEmpty(Elements(b.codes), Available(candidate));
    return missing == [];
  }
}
