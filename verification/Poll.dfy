/**
 Waiting for a published date to reach the edge (scripts/smoke-check-deploy.js:231-366). The clock runs
 on by itself between any two statements, and every answer of the network is possible.
 */
module Poll {
  import opened Wrappers
  import opened Calendar

  /** The dates one round saw in the three files; None is a missing date. */
  datatype Bundle = Bundle(latest: Option<string>, history: Option<string>, meta: Option<string>)

  /** `began` is the clock reading the round was let in with, `seen` a reading after its answers. */
  datatype Round = Round(began: real, seen: real, bundle: Option<Bundle>)

  datatype Result = Returned(bundle: Bundle) | DeadlineExceeded | FetchFailed | NeverArrived

  predicate Matches(b: Bundle, expected: string) {
    b.meta == Some(expected) && b.latest == Some(expected) && b.history == Some(expected)
  }

  /** A mix of the expected and the previous day, with the previous day in it. */
  predicate Pending(b: Bundle, expected: string, previous: string) {
    (forall d :: d in [b.latest, b.history, b.meta] ==> d == Some(expected) || d == Some(previous)) &&
    Some(previous) in [b.latest, b.history, b.meta]
  }

  function PreviousDate(expected: Date): string
    requires DayNumber(expected) > 0
  {
    Iso(DaysBefore(expected, 1))
  }

  /** All of the expected day, or with a date of neither that day nor the day before. */
  predicate Conclusive(b: Bundle, expected: string, previous: string) {
    (b.latest == b.history == b.meta == Some(expected)) ||
    (b.latest != Some(expected) && b.latest != Some(previous)) ||
    (b.history != Some(expected) && b.history != Some(previous)) ||
    (b.meta != Some(expected) && b.meta != Some(previous))
  }

  /** Worth another round: the answers failed, or are still on their way. */
  predicate Inconclusive(r: Round, expected: string, previous: string) {
    r.bundle == None || !Conclusive(r.bundle.value, expected, previous)
  }

  class Network {
    var clock: real
    ghost var rounds: seq<Round>
    /** How long this client chose to sleep, each time. */
    ghost var waits: seq<real>

    method Now() returns (t: real)
      modifies `clock
      ensures t == clock && clock >= old(clock)
    {
      var passed: real := *;
      if passed > 0.0 { clock := clock + passed; }
      t := clock;
    }

    method Wait(ms: real)
      modifies `clock, `waits
      ensures clock >= old(clock) && clock >= old(clock) + ms && waits == old(waits) + [ms]
    {
      waits := waits + [ms];
      if ms > 0.0 { clock := clock + ms; }
      var woke := Now();
    }

    /** All three requests; None when one of them is rejected. */
    method Fetch(ghost began: real) returns (bundle: Option<Bundle>)
      modifies this
      ensures clock >= old(clock) && rounds == old(rounds) + [Round(began, clock, bundle)] && waits == old(waits)
    {
      bundle := *;
      var t := Now();
      rounds := rounds + [Round(began, clock, bundle)];
    }
  }

  /** Dates of different days are spelled differently. */
  lemma MatchIsNotPending(b: Bundle, expected: Date)
    requires DayNumber(expected) > 0
    ensures !(Matches(b, Iso(expected)) && Pending(b, Iso(expected), PreviousDate(expected)))
  {
    DaysBeforeNumber(expected, 1);
    IsoFollowsCalendar(expected, DaysBefore(expected, 1));
    hide Iso, DayNumber, DaysBefore;
  }

  /** The two tests of the loop stop at exactly the conclusive bundles. */
  lemma StopsWhenConclusive(b: Bundle, expected: string, previous: string)
    ensures Conclusive(b, expected, previous) <==> Matches(b, expected) || !Pending(b, expected, previous)
  {
    var dates := [b.latest, b.history, b.meta];
    assert b.latest in dates && b.history in dates && b.meta in dates;
  }

  /** What the loop knows of the rounds so far. */
  ghost predicate SoFar(rounds: seq<Round>, done: nat, deadlineAt: real, expected: string, previous: string) {
    |rounds| == done &&
    forall i :: 0 <= i < |rounds| ==> rounds[i].began < deadlineAt && Inconclusive(rounds[i], expected, previous)
  }

  /** Every round begins at least the delay after the answers of the one before. */
  predicate Spaced(rounds: seq<Round>, delayMs: real) {
    forall i :: 0 < i < |rounds| ==> rounds[i].began >= rounds[i - 1].seen + delayMs
  }

  lemma SpacedGrows(rounds: seq<Round>, next: Round, delayMs: real)
    requires Spaced(rounds, delayMs)
    requires |rounds| > 0 ==> next.began >= rounds[|rounds| - 1].seen + delayMs
    ensures Spaced(rounds + [next], delayMs)
  {
  }

  /** Outside post-publish mode there is one round, and whatever it brings is the answer. */
  method FetchOnce(net: Network) returns (r: Result)
    requires net.rounds == []
    modifies net
    ensures |net.rounds| == 1 && (r.Returned? ==> net.rounds[0].bundle == Some(r.bundle))
    ensures !r.Returned? ==> r == FetchFailed && net.rounds[0].bundle == None
  {
    var bundle := net.Fetch(net.clock);
    return if bundle == None then FetchFailed else Returned(bundle.value);
  }

  /** The delay, or what is left until the deadline. */
  method Pause(net: Network, delayMs: real, deadline: real)
    modifies net
    ensures net.clock >= old(net.clock) && (net.clock >= old(net.clock) + delayMs || net.clock >= deadline)
    ensures net.rounds == old(net.rounds) && |net.waits| == |old(net.waits)| + 1
    ensures forall w :: w in net.waits ==> w in old(net.waits) || w <= delayMs
  {
    var left := net.Now();
    net.Wait(if delayMs < deadline - left then delayMs else deadline - left);
  }

  /**
   Post-publish: bounded rounds, none let in at or past the deadline; it returns the first conclusive
   bundle that was seen before the deadline, and throws when there is none. It sleeps for the given delay, and
   never longer, between inconclusive rounds only.
   */
  method AwaitRelease(net: Network, expected: Date, attempts: nat, delayMs: real, deadlineMs: real)
    returns (r: Result, ghost deadlineAt: real)
    requires DayNumber(expected) > 0 && attempts >= 1 && deadlineMs >= 1.0 && net.rounds == [] && net.waits == []
    modifies net
    ensures deadlineAt >= old(net.clock) + deadlineMs && |net.rounds| <= attempts
    ensures forall i :: 0 <= i < |net.rounds| ==> net.rounds[i].began < deadlineAt
    ensures forall i :: 0 <= i < |net.rounds| - 1 ==> Inconclusive(net.rounds[i], Iso(expected), PreviousDate(expected))
    ensures r.Returned? ==> |net.rounds| > 0 && var last := net.rounds[|net.rounds| - 1];
      last.bundle == Some(r.bundle) && last.seen < deadlineAt
    ensures r.Returned? ==> Conclusive(r.bundle, Iso(expected), Iso(DaysBefore(expected, 1)))
    ensures Spaced(net.rounds, delayMs)
    ensures (forall w :: w in net.waits ==> w <= delayMs) && |net.waits| <= |net.rounds|
    ensures |net.rounds| > 0 && |net.waits| == |net.rounds| ==>
      Inconclusive(net.rounds[|net.rounds| - 1], Iso(expected), PreviousDate(expected))
    ensures r == DeadlineExceeded || r == NeverArrived || r.Returned?
    ensures r == DeadlineExceeded ==> net.clock >= deadlineAt || |net.rounds| == attempts
    ensures r == NeverArrived ==> |net.rounds| == attempts
    ensures !r.Returned? && |net.rounds| > 0 ==>
      Inconclusive(net.rounds[|net.rounds| - 1], Iso(expected), PreviousDate(expected)) || net.clock >= deadlineAt
  {
    assert Spaced(net.rounds, delayMs);
    hide DayNumber, DaysBefore, Iso, Matches, Pending, Conclusive, Spaced;
    var want, before := Iso(expected), PreviousDate(expected);
    var start := net.Now();
    var deadline := start + deadlineMs;
    deadlineAt := deadline;
    var attempt := 1;
    while attempt <= attempts
      invariant 1 <= attempt <= attempts + 1
      invariant SoFar(net.rounds, attempt - 1, deadline, want, before)
      invariant Spaced(net.rounds, delayMs)
      invariant |net.rounds| > 0 && attempt <= attempts ==>
        net.clock >= net.rounds[|net.rounds| - 1].seen + delayMs || net.clock >= deadline
      invariant |net.waits| <= attempt - 1 && forall w :: w in net.waits ==> w <= delayMs
    {
      var began := net.Now();
      if began >= deadline { return DeadlineExceeded, deadlineAt; }
      ghost var earlier := net.rounds;
      var bundle := net.Fetch(began);
      SpacedGrows(earlier, net.rounds[|earlier|], delayMs);
      if bundle == None {
        var t := net.Now();
        if attempt >= attempts || t >= deadline { return DeadlineExceeded, deadlineAt; }
        Pause(net, delayMs, deadline);
      } else {
        var t := net.Now();
        if t >= deadline { return DeadlineExceeded, deadlineAt; }
        StopsWhenConclusive(bundle.value, want, before);
        if Matches(bundle.value, want) || !Pending(bundle.value, want, before) {
          return Returned(bundle.value), deadlineAt;
        }
        if attempt < attempts {
          var again := net.Now();
          if again < deadline {
            Pause(net, delayMs, deadline);
          }
        }
      }
      attempt := attempt + 1;
    }
    var t := net.Now();
    return if t >= deadline then DeadlineExceeded else NeverArrived, deadlineAt;
  }
}
