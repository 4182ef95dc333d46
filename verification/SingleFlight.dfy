/**
 Any number of callers of one scan coalescer, interleaved at its mutex sections
 (cmd/ocr/scan_coalesce.go:73-182). The shared function may return anything at any time; the clock
 never goes back.
 */
module SingleFlight {
  import opened Wrappers
  import opened Coalescer

  /** A result with the number of the execution it came from. */
  datatype Tagged = Tagged(value: Bytes, run: nat)

  /** One execution of the shared function. */
  datatype Run = Run(key: string, started: int, outcome: Option<Outcome<Tagged>>, settled: Option<int>)

  datatype Caller =
    | Waiting(key: string, run: nat, entered: int)
    | Owning(key: string, run: nat, entered: int)
    | Returned(key: string, run: nat, entered: int, outcome: Outcome<Tagged>)
    | Gone

  datatype State = State(now: int, cache: Cache<string, nat, Tagged>, runs: seq<Run>, callers: map<nat, Caller>)

  datatype Step =
    | Tick(to: int)
    | DoEnters(caller: nat, key: string)
    | RecoverEnters(caller: nat, key: string)
    | Finishes(run: nat, value: Option<Bytes>, err: Option<string>)
    | Settles(caller: nat, later: int)
    | Wakes(caller: nat)
    | Cancels(caller: nat)
    | Records(key: string, operation: string)
    | LooksUp(key: string)

  predicate Success(r: Run) {
    r.outcome.Some? && r.outcome.value.err == None && r.outcome.value.result.Some?
  }

  function Tag(value: Option<Bytes>, err: Option<string>, run: nat): Outcome<Tagged> {
    Outcome(if value.Some? then Some(Tagged(value.value, run)) else None, err)
  }

  predicate Enabled(s: State, step: Step) {
    match step
    case Tick(to) => s.now <= to
    case DoEnters(caller, _) => caller !in s.callers
    case RecoverEnters(caller, _) => caller !in s.callers
    case Finishes(run, _, _) => run < |s.runs| && s.runs[run].outcome == None
    case Settles(caller, later) =>
      caller in s.callers && s.callers[caller].Owning? && s.now <= later && var c := s.callers[caller];
      c.run < |s.runs| && s.runs[c.run].outcome.Some? && s.runs[c.run].settled == None && c.key in s.cache.inFlight
    case Wakes(caller) =>
      caller in s.callers && s.callers[caller].Waiting? &&
      s.callers[caller].run < |s.runs| && s.runs[s.callers[caller].run].outcome.Some?
    case Cancels(caller) => caller in s.callers && s.callers[caller].Waiting?
    case Records(_, _) => true
    case LooksUp(_) => true
  }

  /** What a caller that did not start anything becomes. */
  function Joined(s: State, key: string): Caller {
    match Found(s.cache, key, s.now)
    case Replay(r) => Returned(key, r.run, s.now, Outcome(Some(r), None))
    case Join(run) => Waiting(key, run, s.now)
    case Nothing => Gone
  }

  function Entering(s: State, caller: nat, key: string): State {
    var cache := Dropped(s.cache, key, s.now);
    if Found(s.cache, key, s.now) == Nothing then
      State(s.now, Started(cache, key, |s.runs|), s.runs + [Run(key, s.now, None, None)],
            s.callers[caller := Owning(key, |s.runs|, s.now)])
    else s.(cache := cache, callers := s.callers[caller := Joined(s, key)])
  }

  function Settling(s: State, caller: nat, later: int, ttl: int): State
    requires Enabled(s, Settles(caller, later))
  {
    var c := s.callers[caller];
    var r := s.runs[c.run];
    State(later, Settled(s.cache, c.key, r.outcome.value, ttl, s.now, later),
          s.runs[c.run := r.(settled := Some(s.now))],
          s.callers[caller := Returned(c.key, c.run, c.entered, r.outcome.value)])
  }

  function Next(s: State, step: Step, ttl: int): State
    requires Enabled(s, step)
  {
    match step
    case Tick(to) => s.(now := to)
    case DoEnters(caller, key) => Entering(s, caller, key)
    case RecoverEnters(caller, key) => s.(callers := s.callers[caller := Joined(s, key)])
    case Finishes(run, value, err) => s.(runs := s.runs[run := s.runs[run].(outcome := Some(Tag(value, err, run)))])
    case Settles(caller, later) => Settling(s, caller, later, ttl)
    case Wakes(caller) =>
      var c := s.callers[caller];
      s.(callers := s.callers[caller := Returned(c.key, c.run, c.entered, s.runs[c.run].outcome.value)])
    case Cancels(caller) => s.(callers := s.callers[caller := Gone])
    case Records(key, operation) => s.(cache := Recorded(s.cache, key, operation))
    case LooksUp(key) => s.(cache := LookedUp(s.cache, key, s.now))
  }

  // ---- the invariant ----------------------------------------------------------------------

  /** The in-flight map holds exactly the executions that have not settled. */
  predicate FlightOk(s: State, key: string) {
    key in s.cache.inFlight ==>
      var i := s.cache.inFlight[key].call;
      i < |s.runs| && s.runs[i].key == key && s.runs[i].settled == None && key !in s.cache.done
  }

  predicate RunOk(s: State, i: int, ttl: int)
    requires 0 <= i < |s.runs|
  {
    var r := s.runs[i];
    r.started <= s.now && (r.outcome.Some? && r.outcome.value.result.Some? ==> r.outcome.value.result.value.run == i) &&
    match r.settled
    case None => r.key in s.cache.inFlight && s.cache.inFlight[r.key].call == i
    case Some(at) =>
      r.started <= at <= s.now && r.outcome.Some? &&
      (Success(r) && s.now < at + ttl ==>
         r.key in s.cache.done && s.cache.done[r.key].result.Some? && s.cache.done[r.key].result.value.run == i)
  }

  predicate EntryOk(s: State, key: string, ttl: int) {
    key in s.cache.done && s.cache.done[key].result.Some? ==>
      var i := s.cache.done[key].result.value.run;
      i < |s.runs| && s.runs[i].key == key && s.runs[i].settled.Some? &&
      s.cache.done[key].expires == s.runs[i].settled.value + ttl &&
      s.runs[i].outcome == Some(Outcome(s.cache.done[key].result, None))
  }

  /** Executions of one key follow each other, and a success keeps the next one out for its lifetime. */
  predicate Apart(a: Run, b: Run, ttl: int) {
    a.key == b.key ==>
      a.settled.Some? && a.settled.value <= b.started && (Success(a) ==> a.settled.value + ttl <= b.started)
  }

  predicate CallerOk(s: State, c: Caller, ttl: int) {
    !c.Gone? ==>
      c.run < |s.runs| && s.runs[c.run].key == c.key && c.entered <= s.now &&
      (s.runs[c.run].settled.Some? ==> c.entered < s.runs[c.run].settled.value + ttl) &&
      (c.Returned? ==> s.runs[c.run].outcome == Some(c.outcome))
  }

  ghost predicate Inv(s: State, ttl: int) {
    (forall key :: FlightOk(s, key)) &&
    (forall key :: EntryOk(s, key, ttl)) &&
    (forall i :: 0 <= i < |s.runs| ==> RunOk(s, i, ttl)) &&
    (forall i, j :: 0 <= i < j < |s.runs| ==> Apart(s.runs[i], s.runs[j], ttl)) &&
    (forall id :: id in s.callers ==> CallerOk(s, s.callers[id], ttl))
  }

  lemma EnteringKeeps(s: State, caller: nat, key: string, ttl: int)
    requires Inv(s, ttl) && ttl > 0 && caller !in s.callers
    ensures Inv(Entering(s, caller, key), ttl)
  {
    hide Apart;
    var s' := Entering(s, caller, key);
    assert FlightOk(s, key) && EntryOk(s, key, ttl);
    forall k ensures FlightOk(s', k) && EntryOk(s', k, ttl) { assert FlightOk(s, k) && EntryOk(s, k, ttl); }
    forall i | 0 <= i < |s'.runs| ensures RunOk(s', i, ttl) { if i < |s.runs| { assert RunOk(s, i, ttl); } }
    forall i, j | 0 <= i < j < |s'.runs| ensures Apart(s'.runs[i], s'.runs[j], ttl) {
      if j < |s.runs| { assert Apart(s.runs[i], s.runs[j], ttl); }
      else { assert RunOk(s, i, ttl); StartsApart(s, i, key, ttl); }
    }
    forall id | id in s'.callers
      ensures CallerOk(s', s'.callers[id], ttl)
    {
      if id != caller { assert CallerOk(s, s.callers[id], ttl); }
    }
  }

  /** Nothing found for a key: every earlier execution of it has settled, and no success still lives. */
  lemma StartsApart(s: State, i: int, key: string, ttl: int)
    requires Inv(s, ttl) && 0 <= i < |s.runs| && Found(s.cache, key, s.now) == Nothing
    ensures Apart(s.runs[i], Run(key, s.now, None, None), ttl)
  {
    assert RunOk(s, i, ttl) && EntryOk(s, key, ttl);
  }

  lemma FinishingKeeps(s: State, run: nat, value: Option<Bytes>, err: Option<string>, ttl: int)
    requires Inv(s, ttl) && Enabled(s, Finishes(run, value, err))
    ensures Inv(Next(s, Finishes(run, value, err), ttl), ttl)
  {
    hide Apart;
    var s' := Next(s, Finishes(run, value, err), ttl);
    forall k ensures FlightOk(s', k) && EntryOk(s', k, ttl) { assert FlightOk(s, k) && EntryOk(s, k, ttl); }
    forall i | 0 <= i < |s'.runs| ensures RunOk(s', i, ttl) { assert RunOk(s, i, ttl) && RunOk(s, run, ttl); }
    forall i, j | 0 <= i < j < |s'.runs| ensures Apart(s'.runs[i], s'.runs[j], ttl) {
      assert Apart(s.runs[i], s.runs[j], ttl);
      assert RunOk(s, run, ttl) && RunOk(s, i, ttl);
      FinishedApart(s.runs[i], s.runs[j], s'.runs[i], s'.runs[j], ttl);
    }
    forall id | id in s'.callers ensures CallerOk(s', s'.callers[id], ttl) { assert CallerOk(s, s.callers[id], ttl); }
  }

  lemma FinishedApart(a: Run, b: Run, a': Run, b': Run, ttl: int)
    requires Apart(a, b, ttl) && b'.key == b.key && b'.started == b.started
    requires a' == a || (a'.key == a.key && a.settled == None)
    ensures Apart(a', b', ttl)
  {
  }

  lemma SettlingKeeps(s: State, caller: nat, later: int, ttl: int)
    requires Inv(s, ttl) && ttl > 0 && Enabled(s, Settles(caller, later))
    ensures Inv(Settling(s, caller, later, ttl), ttl)
  {
    hide Apart;
    var s' := Settling(s, caller, later, ttl);
    var c := s.callers[caller];
    assert CallerOk(s, c, ttl) && RunOk(s, c.run, ttl) && FlightOk(s, c.key);
    forall k ensures FlightOk(s', k) && EntryOk(s', k, ttl) { assert FlightOk(s, k) && EntryOk(s, k, ttl); }
    forall i | 0 <= i < |s'.runs|
      ensures RunOk(s', i, ttl)
    {
      assert RunOk(s, i, ttl) && EntryOk(s, s.runs[i].key, ttl) && FlightOk(s, s.runs[i].key);
    }
    forall i, j | 0 <= i < j < |s'.runs| ensures Apart(s'.runs[i], s'.runs[j], ttl) {
      assert Apart(s.runs[i], s.runs[j], ttl);
      FinishedApart(s.runs[i], s.runs[j], s'.runs[i], s'.runs[j], ttl);
    }
    forall id | id in s'.callers ensures CallerOk(s', s'.callers[id], ttl) { assert CallerOk(s, s.callers[id], ttl); }
  }

  lemma QuietStepKeeps(s: State, step: Step, ttl: int)
    requires Inv(s, ttl) && Enabled(s, step) && (step.Tick? || step.Records? || step.LooksUp?)
    ensures Inv(Next(s, step, ttl), ttl)
  {
    hide Apart;
    var s' := Next(s, step, ttl);
    forall k ensures FlightOk(s', k) && EntryOk(s', k, ttl) { assert FlightOk(s, k) && EntryOk(s, k, ttl); }
    forall i | 0 <= i < |s'.runs|
      ensures RunOk(s', i, ttl)
    {
      assert RunOk(s, i, ttl) && EntryOk(s, s.runs[i].key, ttl);
    }
    forall i, j | 0 <= i < j < |s'.runs|
      ensures Apart(s'.runs[i], s'.runs[j], ttl)
    {
      assert Apart(s.runs[i], s.runs[j], ttl);
    }
    forall id | id in s'.callers ensures CallerOk(s', s'.callers[id], ttl) { assert CallerOk(s, s.callers[id], ttl); }
  }

  lemma CallerStepKeeps(s: State, step: Step, ttl: int)
    requires Inv(s, ttl) && ttl > 0 && Enabled(s, step) && (step.RecoverEnters? || step.Wakes? || step.Cancels?)
    ensures Inv(Next(s, step, ttl), ttl)
  {
    hide Apart, RunOk;
    var s' := Next(s, step, ttl);
    assert s'.runs == s.runs && s'.cache == s.cache && s'.now == s.now;
    forall k ensures FlightOk(s', k) && EntryOk(s', k, ttl) { assert FlightOk(s, k) && EntryOk(s, k, ttl); }
    forall i | 0 <= i < |s'.runs| ensures RunOk(s', i, ttl) { assert RunOk(s, i, ttl); SameRun(s, s', i, ttl); }
    forall i, j | 0 <= i < j < |s'.runs|
      ensures Apart(s'.runs[i], s'.runs[j], ttl)
    {
      assert Apart(s.runs[i], s.runs[j], ttl);
    }
    if step.RecoverEnters? { assert FlightOk(s, step.key) && EntryOk(s, step.key, ttl); }
    forall id | id in s'.callers
      ensures CallerOk(s', s'.callers[id], ttl)
    {
      if id in s.callers { assert CallerOk(s, s.callers[id], ttl); }
    }
  }

  lemma SameRun(s: State, s': State, i: int, ttl: int)
    requires 0 <= i < |s.runs| && s'.runs == s.runs && s'.cache == s.cache && s'.now == s.now && RunOk(s, i, ttl)
    ensures RunOk(s', i, ttl)
  {
  }

  lemma StepKeeps(s: State, step: Step, ttl: int)
    requires Inv(s, ttl) && ttl > 0 && Enabled(s, step)
    ensures Inv(Next(s, step, ttl), ttl)
  {
    hide Inv;
    match step {
      case DoEnters(caller, key) => EnteringKeeps(s, caller, key, ttl);
      case Finishes(run, value, err) => FinishingKeeps(s, run, value, err, ttl);
      case Settles(caller, later) => SettlingKeeps(s, caller, later, ttl);
      case RecoverEnters(_, _) => CallerStepKeeps(s, step, ttl);
      case Wakes(_) => CallerStepKeeps(s, step, ttl);
      case Cancels(_) => CallerStepKeeps(s, step, ttl);
      case Tick(_) => QuietStepKeeps(s, step, ttl);
      case Records(_, _) => QuietStepKeeps(s, step, ttl);
      case LooksUp(_) => QuietStepKeeps(s, step, ttl);
    }
  }

  // ---- whole runs -------------------------------------------------------------------------

  function Initial(now: int): State { State(now, Cache(map[], map[]), [], map[]) }

  ghost predicate Behaviour(states: seq<State>, steps: seq<Step>, ttl: int) {
    |states| == |steps| + 1 && states[0] == Initial(states[0].now) &&
    forall k :: 0 <= k < |steps| ==> Moves(states[k], steps[k], states[k + 1], ttl)
  }

  predicate Moves(s: State, step: Step, s': State, ttl: int) { Enabled(s, step) && s' == Next(s, step, ttl) }

  lemma {:induction false} ReachableInv(states: seq<State>, steps: seq<Step>, k: nat, ttl: int)
    requires Behaviour(states, steps, ttl) && ttl > 0 && k < |states|
    ensures Inv(states[k], ttl)
  {
    hide Enabled, Next;
    if k == 0 {
      hide FlightOk, EntryOk;
      forall key ensures FlightOk(states[0], key) && EntryOk(states[0], key, ttl) { EmptyCache(states[0], key, ttl); }
    } else {
      hide Inv;
      ReachableInv(states, steps, k - 1, ttl);
      assert Moves(states[k - 1], steps[k - 1], states[k], ttl);
      StepKeeps(states[k - 1], steps[k - 1], ttl);
    }
  }

  lemma EmptyCache(s: State, key: string, ttl: int)
    requires s.cache == Cache(map[], map[])
    ensures FlightOk(s, key) && EntryOk(s, key, ttl)
  {
  }

  /** At most one execution of a key is running, whatever the callers do. */
  lemma SingleExecution(states: seq<State>, steps: seq<Step>, k: nat, i: nat, j: nat, ttl: int)
    requires Behaviour(states, steps, ttl) && ttl > 0 && k < |states| && i < |states[k].runs| && j < |states[k].runs|
    requires states[k].runs[i].key == states[k].runs[j].key
    requires states[k].runs[i].settled == None && states[k].runs[j].settled == None
    ensures i == j
  {
    hide Behaviour;
    ReachableInv(states, steps, k, ttl);
    assert RunOk(states[k], i, ttl) && RunOk(states[k], j, ttl);
  }

  /** An execution starts after every earlier one of its key has settled, and after a success has expired. */
  lemma NoneStartsBeforeExpiry(states: seq<State>, steps: seq<Step>, k: nat, i: nat, j: nat, ttl: int)
    requires Behaviour(states, steps, ttl) && ttl > 0 && k < |states| && i < j < |states[k].runs|
    requires states[k].runs[i].key == states[k].runs[j].key
    ensures states[k].runs[i].settled.Some? && states[k].runs[i].settled.value <= states[k].runs[j].started
    ensures Success(states[k].runs[i]) ==> states[k].runs[i].settled.value + ttl <= states[k].runs[j].started
  {
    hide Behaviour, FlightOk, EntryOk, RunOk, CallerOk;
    ReachableInv(states, steps, k, ttl);
    assert Apart(states[k].runs[i], states[k].runs[j], ttl);
  }

  /**
   Whoever returns gets the outcome of an execution of its own key that was running, or less than a TTL
   old, when it came in.
   */
  lemma ReturnsAreHonest(states: seq<State>, steps: seq<Step>, k: nat, id: nat, ttl: int)
    requires Behaviour(states, steps, ttl) && ttl > 0 && k < |states|
    requires id in states[k].callers && states[k].callers[id].Returned?
    ensures var c := states[k].callers[id];
      c.run < |states[k].runs| && states[k].runs[c.run].key == c.key &&
      states[k].runs[c.run].outcome == Some(c.outcome) &&
      (states[k].runs[c.run].settled.Some? ==> c.entered < states[k].runs[c.run].settled.value + ttl)
  {
    hide Behaviour, FlightOk, EntryOk, RunOk, Apart;
    ReachableInv(states, steps, k, ttl);
    assert CallerOk(states[k], states[k].callers[id], ttl);
  }

  /**
   Once its function has returned, nobody changes an execution's outcome; a cancelled caller changes
   nothing but itself.
   */
  lemma OutcomesAreFixed(s: State, step: Step, ttl: int, i: nat)
    requires Enabled(s, step) && i < |s.runs|
    ensures i < |Next(s, step, ttl).runs|
    ensures s.runs[i].outcome.Some? ==> Next(s, step, ttl).runs[i].outcome == s.runs[i].outcome
    ensures step.Cancels? ==> Next(s, step, ttl) == s.(callers := s.callers[step.caller := Gone])
    ensures step.Finishes? || Next(s, step, ttl).runs[i].outcome == s.runs[i].outcome
  {
  }

  // ---- callers get on --------------------------------------------------------------------------

  /** The execution still runs, or its success still lives. */
  predicate Shareable(r: Run, now: int, ttl: int) {
    r.settled == None || (Success(r) && now < r.settled.value + ttl)
  }

  /** How a caller ends up that comes in while execution `i` of its key is shareable. */
  function Shared(s: State, i: nat): Caller
    requires i < |s.runs| && (s.runs[i].settled.Some? ==> s.runs[i].outcome.Some?)
  {
    var r := s.runs[i];
    if r.settled == None then Waiting(r.key, i, s.now) else Returned(r.key, i, s.now, r.outcome.value)
  }

  /** Whoever comes in while an execution of its key runs joins it, and while its success lives returns it at once. */
  lemma EntrantsShare(states: seq<State>, steps: seq<Step>, k: nat, caller: nat, i: nat, ttl: int)
    requires Behaviour(states, steps, ttl) && ttl > 0 && k < |states| && caller !in states[k].callers
    requires i < |states[k].runs| && Shareable(states[k].runs[i], states[k].now, ttl)
    ensures var s := states[k];
      (s.runs[i].settled.Some? ==> s.runs[i].outcome.Some?) &&
      Next(s, DoEnters(caller, s.runs[i].key), ttl).callers == s.callers[caller := Shared(s, i)] &&
      Next(s, DoEnters(caller, s.runs[i].key), ttl).runs == s.runs &&
      Next(s, RecoverEnters(caller, s.runs[i].key), ttl).callers == s.callers[caller := Shared(s, i)]
  {
    ReachableInv(states, steps, k, ttl);
    var s := states[k];
    assert RunOk(s, i, ttl) && FlightOk(s, s.runs[i].key) && EntryOk(s, s.runs[i].key, ttl);
    hide Behaviour, Inv;
  }

  /** And when there is none, Do starts one of its own, and Recover comes back with nothing. */
  lemma NewcomersStart(states: seq<State>, steps: seq<Step>, k: nat, caller: nat, key: string, ttl: int)
    requires Behaviour(states, steps, ttl) && ttl > 0 && k < |states| && caller !in states[k].callers
    requires forall i :: 0 <= i < |states[k].runs| && states[k].runs[i].key == key ==>
      !Shareable(states[k].runs[i], states[k].now, ttl)
    ensures var s := states[k];
      Next(s, DoEnters(caller, key), ttl).callers == s.callers[caller := Owning(key, |s.runs|, s.now)] &&
      Next(s, DoEnters(caller, key), ttl).runs == s.runs + [Run(key, s.now, None, None)] &&
      Next(s, RecoverEnters(caller, key), ttl) == s.(callers := s.callers[caller := Gone])
  {
    ReachableInv(states, steps, k, ttl);
    var s := states[k];
    assert FlightOk(s, key) && EntryOk(s, key, ttl);
    hide Behaviour, Inv;
  }

  /** Whoever owns an execution is the only one to own it, and it has not settled. */
  ghost predicate OwnersOk(s: State) {
    (forall id :: id in s.callers && s.callers[id].Owning? ==> OwnsUnsettled(s, s.callers[id])) &&
    forall a, b :: a in s.callers && b in s.callers && a != b ==> OwnApart(s.callers[a], s.callers[b])
  }

  predicate OwnsUnsettled(s: State, c: Caller)
    requires c.Owning?
  {
    c.run < |s.runs| && s.runs[c.run].settled == None
  }

  predicate OwnApart(a: Caller, b: Caller) { a.Owning? && b.Owning? ==> a.run != b.run }

  lemma OwnersKeep(s: State, step: Step, ttl: int)
    requires OwnersOk(s) && Enabled(s, step)
    ensures OwnersOk(Next(s, step, ttl))
  {
    hide Found, Dropped, Started, Settled, Recorded, LookedUp;
    var s' := Next(s, step, ttl);
    forall a, b | a in s'.callers && b in s'.callers && a != b ensures OwnApart(s'.callers[a], s'.callers[b]) {
      if a in s.callers && b in s.callers { assert OwnApart(s.callers[a], s.callers[b]); }
    }
    forall id | id in s'.callers && s'.callers[id].Owning?
      ensures OwnsUnsettled(s', s'.callers[id])
    {
      if step.Settles? { assert OwnApart(s.callers[id], s.callers[step.caller]); }
    }
  }

  lemma {:induction false} ReachableOwners(states: seq<State>, steps: seq<Step>, k: nat, ttl: int)
    requires Behaviour(states, steps, ttl) && k < |states|
    ensures OwnersOk(states[k])
  {
    hide Enabled, Next;
    if k > 0 {
      hide OwnersOk;
      ReachableOwners(states, steps, k - 1, ttl);
      assert Moves(states[k - 1], steps[k - 1], states[k], ttl);
      OwnersKeep(states[k - 1], steps[k - 1], ttl);
    }
  }

  /**
   Nobody who is in is stuck: the owner of an execution whose function has returned can settle, whoever
   waits for it can wake, and both return exactly its outcome.
   */
  lemma CallersReturn(states: seq<State>, steps: seq<Step>, k: nat, id: nat, later: int, ttl: int)
    requires Behaviour(states, steps, ttl) && ttl > 0 && k < |states| && states[k].now <= later
    requires id in states[k].callers && (states[k].callers[id].Owning? || states[k].callers[id].Waiting?)
    ensures var s, c := states[k], states[k].callers[id];
      c.run < |s.runs| &&
      (s.runs[c.run].outcome == None ==> forall value, err :: Enabled(s, Finishes(c.run, value, err))) &&
      (s.runs[c.run].outcome.Some? ==>
         var step := if c.Owning? then Settles(id, later) else Wakes(id);
         Enabled(s, step) &&
         Next(s, step, ttl).callers[id] == Returned(c.key, c.run, c.entered, s.runs[c.run].outcome.value))
  {
    ReachableInv(states, steps, k, ttl);
    ReachableOwners(states, steps, k, ttl);
    var s, c := states[k], states[k].callers[id];
    assert CallerOk(s, c, ttl) && RunOk(s, c.run, ttl);
    hide Behaviour, Inv, Settled;
  }
}
