/**
 Scan requests always get on: in every reachable state an unfinished request can take a step, unless it
 waits for a running call, and it takes at most fifteen (cmd/ocr/main.go:457-574).
 */
module ScanProgress {
  import opened Wrappers
  import opened Coalescer
  import opened ScanProtocol
  import opened ScanSafety

  /** An upper bound on the steps a request has left. */
  function Rank(p: Phase): nat {
    match p
    case Looking(c) =>
      (match c
       case CapStart => 8 case CapLookup => 7 case CapHas(_) => 6 case CapRead => 5 case CapEnter(_) => 4)
    case OuterWait(_) => 1
    case Admitting(a) =>
      (match a
       case Start => 15 case Reserving => 14 case Taken => 5 case Replaying(_) => 4 case ReplayRecording(_, _) => 3
       case TakenRead => 4 case Resuming(_) => 3)
    case Owning(o) =>
      (match o
       case EnterInner => 13 case InnerWait(_) => 6 case AfterInner(_, _) => 5
       case JoinRecording(_, _) => 4 case Releasing(_) => 3)
    case Executing(e) =>
      (match e
       case Sending => 12 case Submitting => 11 case Recording(_) => 10 case Noting(_) => 9 case Polling(_) => 8
       case InnerReturning(_) => 7 case InnerSettling(_) => 6)
    case Returning(_) => 2
    case Settling(_) => 1
    case Finished(_) => 0
    case Crashed => 0
  }

  const MOST_STEPS := 15

  lemma RankIsBounded(p: Phase)
    ensures Rank(p) <= MOST_STEPS
  {
  }

  /** Only request `r` moved, and it has fewer steps left. */
  predicate Progress(s: State, r: nat, s': Option<State>) {
    r in s.reqs && s'.Some? ==>
      r in s'.value.reqs && Rank(s'.value.reqs[r].phase) < Rank(s.reqs[r].phase) &&
      s'.value.reqs == s.reqs[r := s'.value.reqs[r]]
  }

  lemma QuietRank(s: State, q: Request, action: Action)
    requires Quiet(s, q, action).Some?
    ensures Rank(Quiet(s, q, action).value) < Rank(q.phase)
  {
    hide Found, OperationOf, CacheOf, DurableOperation, PollAnswer;
    match action {
      case Recover(at) => hide Waking, Abandoning, Confirming, Reading, Polled, Checking;
      case Wake => hide Recovering, Abandoning, Confirming, Reading, Polled, Checking;
      case Abandon => hide Recovering, Waking, Confirming, Reading, Polled, Checking;
      case HasReservation(_) => hide Recovering, Waking, Abandoning, Reading, Polled, Checking;
      case ReadOperation(_) => hide Recovering, Waking, Abandoning, Confirming, Polled, Checking;
      case Poll(_) => hide Recovering, Waking, Abandoning, Confirming, Reading, Checking;
      case CheckOperation(_) => hide Recovering, Waking, Abandoning, Confirming, Reading, Polled;
      case _ =>
    }
  }

  lemma LookupRank(q: Request, cached: Option<string>)
    requires AfterLookup(q, cached).Some?
    ensures Rank(AfterLookup(q, cached).value) < Rank(q.phase)
  {
  }

  lemma LookingUpProgress(s: State, r: nat, q: Request, at: int)
    requires r in s.reqs && q == s.reqs[r]
    ensures Progress(s, r, LookingUp(s, r, q, at))
  {
    hide LookedUp, CacheOf, Rank, AfterLookup, Servable;
    var cache, key := CacheOf(s, q.inst), InnerKey(q);
    var cached := if key in cache.done && Servable(cache.done[key], at) then cache.done[key].result else None;
    if AfterLookup(q, cached).Some? { LookupRank(q, cached); }
    assert LookingUp(s, r, q, at) ==
      if AfterLookup(q, cached) == None then None
      else Some(PutCache(s, r, q.(phase := AfterLookup(q, cached).value), LookedUp(cache, key, at)));
    hide LookingUp;
  }

  lemma EnteringProgress(s: State, r: nat, q: Request, call: nat, at: int)
    requires r in s.reqs && q == s.reqs[r]
    ensures Progress(s, r, Entering(s, r, q, call, at))
  {
    if EnterKey(q).Some? { ProceedingRank(q, Found(CacheOf(s, q.inst), EnterKey(q).value, at), call); }
    hide Found, Dropped, Started, CacheOf, Proceeding, EnterKey, Rank;
  }

  lemma ProceedingRank(q: Request, found: Entered<nat, string>, call: nat)
    requires EnterKey(q).Some?
    ensures Rank(Proceeding(q, found, call).phase) < Rank(q.phase)
  {
  }

  lemma AfterReserveRank(q: Request, free: bool, fails: bool, applied: bool)
    requires AfterReserve(q, free, fails, applied).Some?
    ensures Rank(AfterReserve(q, free, fails, applied).value.0) < Rank(q.phase)
  {
  }

  lemma ReservedProgress(s: State, r: nat, q: Request, fails: bool, applied: bool)
    requires r in s.reqs && q == s.reqs[r]
    ensures Progress(s, r, Reserved(s, r, q, fails, applied))
  {
    hide Rank, AfterReserve;
    if AfterReserve(q, q.slot !in s.store, fails, applied).Some? {
      AfterReserveRank(q, q.slot !in s.store, fails, applied);
    }
  }

  lemma ReleaseRank(o: Answer)
    ensures Rank(Returning(o)) < Rank(Owning(Releasing(o)))
  {
  }

  lemma ReleasedProgress(s: State, r: nat, q: Request, fails: bool, applied: bool)
    requires r in s.reqs && q == s.reqs[r]
    ensures Progress(s, r, Released(s, r, q, fails, applied))
  {
    hide Rank;
    match q.phase {
      case Owning(Releasing(o)) => ReleaseRank(o);
      case _ => assert Released(s, r, q, fails, applied) == None;
    }
  }

  lemma RecordProgress(s: State, r: nat, q: Request, fails: bool, applied: bool)
    requires r in s.reqs && q == s.reqs[r]
    ensures Progress(s, r, RecordsDurably(s, r, q, fails, applied))
  {
    if AfterRecord(q, true).Some? {
      AfterRecordRank(q, true);
      AfterRecordRank(q, false);
    }
    hide AfterRecord, MayRecord, Rank;
  }

  lemma AfterRecordRank(q: Request, recorded: bool)
    requires AfterRecord(q, true).Some?
    ensures AfterRecord(q, recorded).Some? && Rank(AfterRecord(q, recorded).value.0) < Rank(q.phase)
  {
  }

  lemma ProviderRank(o: Answer, op: string)
    ensures Rank(Executing(InnerReturning(o))) < Rank(Executing(Polling(op))) < Rank(Executing(Noting(op)))
    ensures Rank(Executing(Polling(op))) < Rank(Executing(Recording(op)))
    ensures Rank(Executing(Recording(op))) < Rank(Executing(Submitting)) < Rank(Executing(Sending))
  {
  }

  lemma SentProgress(s: State, r: nat, q: Request)
    requires r in s.reqs && q == s.reqs[r]
    ensures Progress(s, r, Sent(s, r, q))
  {
    hide Rank;
    ProviderRank(Failure(FAILED), "");
  }

  lemma AfterResponseRank(q: Request, response: Response, ops: map<string, string>)
    requires AfterResponse(q, response, ops).Some?
    ensures Rank(AfterResponse(q, response, ops).value.0) < Rank(q.phase)
  {
  }

  lemma AnsweredProgress(s: State, r: nat, q: Request, response: Response)
    requires r in s.reqs && q == s.reqs[r]
    ensures Progress(s, r, Answered(s, r, q, response))
  {
    hide Rank, AfterResponse;
    if AfterResponse(q, response, s.ops).Some? { AfterResponseRank(q, response, s.ops); }
  }

  lemma NotingProgress(s: State, r: nat, q: Request)
    requires r in s.reqs && q == s.reqs[r]
    ensures Progress(s, r, NotingOperation(s, r, q))
  {
    hide Recorded, CacheOf, Rank;
    match q.phase {
      case Executing(Noting(op)) => ProviderRank(Failure(FAILED), op);
      case _ => assert NotingOperation(s, r, q) == None;
    }
  }

  lemma LeavingRank(q: Request)
    requires Leaving(q).Some?
    ensures Rank(Leaving(q).value.2.phase) < Rank(q.phase)
  {
  }

  lemma EndingRank(q: Request)
    requires Ending(q).Some?
    ensures Rank(Ending(q).value.3) < Rank(q.phase)
  {
  }

  lemma ReturnsProgress(s: State, r: nat, q: Request)
    requires r in s.reqs && q == s.reqs[r]
    ensures Progress(s, r, CallReturns(s, r, q))
  {
    if CallReturns(s, r, q).Some? {
      hide Rank, CallReturns, Ending;
      CallReturnsFacts(s, r, q);
      EndingRank(q);
    }
  }

  lemma SettlesProgress(s: State, r: nat, q: Request, ttl: int, at: int, later: int)
    requires r in s.reqs && q == s.reqs[r]
    ensures Progress(s, r, CallSettles(s, r, q, ttl, at, later))
  {
    hide Settled, CacheOf, Rank, Leaving;
    if Leaving(q).Some? { LeavingRank(q); }
  }

  /** Whatever it does, a request has fewer steps left afterwards, and it alone moves. */
  lemma EveryActionProgresses(s: State, r: nat, action: Action)
    requires r in s.reqs
    ensures Progress(s, r, Acts(s, r, s.reqs[r], action))
  {
    var q := s.reqs[r];
    hide Progress, Rank, LookingUp, Entering, Reserved, RecordsDurably, NotingOperation;
    hide Sent, Answered, CallReturns, CallSettles, Released, Quiet;
    match action {
      case Lookup(at) => LookingUpProgress(s, r, q, at);
      case EnterDo(call, at) => EnteringProgress(s, r, q, call, at);
      case Reserve(fails, applied) => ReservedProgress(s, r, q, fails, applied);
      case RecordOperation(fails, applied) => RecordProgress(s, r, q, fails, applied);
      case NoteOperation => NotingProgress(s, r, q);
      case Send => SentProgress(s, r, q);
      case Respond(response) => AnsweredProgress(s, r, q, response);
      case Return => ReturnsProgress(s, r, q);
      case Settle(ttl, at, later) => SettlesProgress(s, r, q, ttl, at, later);
      case Release(fails, applied) => ReleasedProgress(s, r, q, fails, applied);
      case _ => QuietProgress(s, r, q, action);
    }
  }

  lemma QuietProgress(s: State, r: nat, q: Request, action: Action)
    requires r in s.reqs && q == s.reqs[r]
    ensures var phase := Quiet(s, q, action);
      Progress(s, r, if phase == None then None else Some(Put(s, r, q.(phase := phase.value))))
  {
    if Quiet(s, q, action).Some? { QuietRank(s, q, action); }
    hide Quiet, Rank;
  }

  // ---- no request gets stuck -------------------------------------------------------------------

  lemma {:induction false} UnusedNumber(used: set<nat>) returns (n: nat)
    ensures n !in used && forall u :: u in used ==> u < n
  {
    if used == {} { n := 0; }
    else {
      var u :| u in used;
      var m := UnusedNumber(used - {u});
      n := if u < m then m else u + 1;
      forall v | v in used ensures v < n { if v != u { assert v in used - {u}; } }
    }
  }

  /** The call a request waits for. */
  function WaitsFor(p: Phase): Option<nat> {
    match p
    case OuterWait(c) => Some(c)
    case Owning(InnerWait(c)) => Some(c)
    case _ => None
  }

  predicate Ended(s: State, c: nat) { c in s.calls && s.calls[c].outcome.Some? }

  /** Nothing but the end of somebody else's call can wake the request. */
  predicate Blocked(s: State, q: Request) { WaitsFor(q.phase).Some? && !Ended(s, WaitsFor(q.phase).value) }

  /** What an unfinished request that is not blocked can do next. */
  function NextAction(p: Phase, call: nat): Action {
    match p
    case Looking(c) =>
      (match c
       case CapStart => Recover(0) case CapLookup => Lookup(0) case CapHas(_) => HasReservation(false)
       case CapRead => ReadOperation(false) case CapEnter(_) => EnterDo(call, 0))
    case OuterWait(_) => Wake
    case Admitting(a) =>
      (match a
       case Start => EnterDo(call, 0) case Reserving => Reserve(false, true)
       case Taken => Lookup(0) case Replaying(_) => CheckOperation(0)
       case ReplayRecording(_, _) => RecordOperation(false, true)
       case TakenRead => ReadOperation(false) case Resuming(_) => Poll(false))
    case Owning(o) =>
      (match o
       case EnterInner => EnterDo(call, 0) case InnerWait(_) => Wake case AfterInner(_, _) => CheckOperation(0)
       case JoinRecording(_, _) => RecordOperation(false, true) case Releasing(_) => Release(false, true))
    case Executing(e) =>
      (match e
       case Sending => Send case Submitting => Respond(Unclear)
       case Recording(_) => RecordOperation(false, true) case Noting(_) => NoteOperation
       case Polling(_) => Poll(false) case InnerReturning(_) => Return case InnerSettling(_) => Settle(1, 0, 0))
    case Returning(_) => Return
    case _ => Settle(1, 0, 0)
  }

  lemma LookingActs(s: State, r: nat, q: Request, call: nat)
    requires q.phase.Looking? && call !in s.calls
    ensures Acts(s, r, q, NextAction(q.phase, call)).Some?
  {
    hide Found, Dropped, Started, LookedUp, CacheOf, DurableOperation, Recovering, Proceeding;
  }

  lemma AdmittingActs(s: State, r: nat, q: Request, call: nat)
    requires q.phase.Admitting? && call !in s.calls
    ensures Acts(s, r, q, NextAction(q.phase, call)).Some?
  {
    hide Found, Dropped, Started, LookedUp, CacheOf, DurableOperation, PollAnswer, OperationOf, Proceeding;
  }

  lemma OwningActs(s: State, r: nat, q: Request, call: nat)
    requires q.phase.Owning? && call !in s.calls && !Blocked(s, q)
    ensures Acts(s, r, q, NextAction(q.phase, call)).Some?
  {
    hide Found, Dropped, Started, CacheOf, OperationOf, Proceeding;
  }

  lemma ExecutingActs(s: State, r: nat, q: Request, call: nat)
    requires q.phase.Executing?
    requires Ending(q).Some? ==> CallReturns(s, r, q).Some?
    requires SettlingKey(q).Some? ==> CallSettles(s, r, q, 1, 0, 0).Some?
    ensures Acts(s, r, q, NextAction(q.phase, call)).Some?
  {
    hide CallReturns, CallSettles, PollAnswer, Recorded, CacheOf;
  }

  /** In every reachable state every unfinished request that is not blocked can take a step, other than giving up. */
  lemma NeverStuck(states: seq<State>, steps: seq<Step>, k: nat, r: nat)
    requires Run(states, steps) && k < |states| && r in states[k].reqs && Working(states[k].reqs[r])
    requires !Blocked(states[k], states[k].reqs[r])
    ensures exists action :: action != Abandon && Next(states[k], Act(r, action)).Some?
  {
    var s, q := states[k], states[k].reqs[r];
    var call := UnusedNumber(s.calls.Keys);
    var action := NextAction(q.phase, call);
    OwnersAlwaysSettle(states, steps, k, r, 1, 0, 0);
    hide Run, Acts, Blocked;
    assert Acts(s, r, q, action).Some? by {
      match q.phase {
        case Looking(_) => LookingActs(s, r, q, call);
        case Admitting(_) => AdmittingActs(s, r, q, call);
        case Owning(_) => OwningActs(s, r, q, call);
        case Executing(_) => ExecutingActs(s, r, q, call);
        case _ => LeavingActs(s, r, q, call);
      }
    }
    assert Next(s, Act(r, action)).Some?;
  }

  lemma LeavingActs(s: State, r: nat, q: Request, call: nat)
    requires q.phase.OuterWait? || q.phase.Returning? || q.phase.Settling?
    requires !Blocked(s, q)
    requires Ending(q).Some? ==> CallReturns(s, r, q).Some?
    requires SettlingKey(q).Some? ==> CallSettles(s, r, q, 1, 0, 0).Some?
    ensures Acts(s, r, q, NextAction(q.phase, call)).Some?
  {
    hide CallReturns, CallSettles;
  }

  // ---- and it gets done in a few steps ------------------------------------------------------------

  /** How many of the steps are actions of request `r`. */
  function ActionsOf(steps: seq<Step>, r: nat): nat {
    if steps == [] then 0
    else ActionsOf(steps[..|steps| - 1], r) + if steps[|steps| - 1].Act? && steps[|steps| - 1].r == r then 1 else 0
  }

  lemma EnvironmentKeepsRank(s: State, step: Step, r: nat)
    requires Next(s, step).Some? && !step.Act? && r in s.reqs
    ensures r in Next(s, step).value.reqs && Rank(Next(s, step).value.reqs[r].phase) <= Rank(s.reqs[r].phase)
  {
    hide Acts;
  }

  lemma {:induction false} StepsAndRank(states: seq<State>, steps: seq<Step>, r: nat)
    requires Run(states, steps)
    ensures if r in states[|steps|].reqs
      then ActionsOf(steps, r) + Rank(states[|steps|].reqs[r].phase) <= MOST_STEPS
      else ActionsOf(steps, r) == 0
  {
    hide Next, Rank, Initial;
    if steps == [] {
      NoRequestsYet(states[0], r);
    } else {
      var n := |steps| - 1;
      StepsAndRank(states[..|steps|], steps[..n], r);
      assert Next(states[n], steps[n]) == Some(states[n + 1]);
      OneStepAndRank(states[n], steps[n], states[n + 1], r);
    }
  }

  lemma NoRequestsYet(s: State, r: nat)
    requires Initial(s)
    ensures r !in s.reqs
  {
  }

  lemma OneStepAndRank(s: State, step: Step, s': State, r: nat)
    requires Next(s, step) == Some(s')
    ensures r in s.reqs ==>
      r in s'.reqs && Rank(s'.reqs[r].phase) + (if step.Act? && step.r == r then 1 else 0) <= Rank(s.reqs[r].phase)
    ensures r !in s.reqs && r in s'.reqs ==> Rank(s'.reqs[r].phase) <= MOST_STEPS
    ensures r !in s.reqs ==> !(step.Act? && step.r == r)
  {
    if r in s'.reqs { RankIsBounded(s'.reqs[r].phase); }
    if step.Act? { EveryActionProgresses(s, step.r, step.action); }
    else if r in s.reqs { EnvironmentKeepsRank(s, step, r); }
    hide Acts, Arrived, Crashing, Lapsed, Reaped, Rank;
  }

  /** No request takes more than fifteen steps of its own, in any run. */
  lemma FewSteps(states: seq<State>, steps: seq<Step>, r: nat)
    requires Run(states, steps)
    ensures ActionsOf(steps, r) <= MOST_STEPS
  {
    hide Run, Rank, ActionsOf;
    StepsAndRank(states, steps, r);
  }
}
