/**
 No wait is in vain: the request that runs an awaited call is alive on the same instance and can go on,
 so every request can be finished without anybody giving up (cmd/ocr/scan_coalesce.go:78-151).
 */
module ScanWaits {
  import opened Wrappers
  import opened Coalescer
  import opened ScanProtocol
  import opened ScanSafety
  import opened ScanProgress

  predicate Holds(q: Request, c: nat) { q.outerCall == Some(c) || q.innerCall == Some(c) }

  /** The owner of the call is on this instance and still runs it. */
  predicate Alive(s: State, inst: nat, c: nat) {
    c in s.calls && s.calls[c].owner in s.reqs && s.reqs[s.calls[c].owner].inst == inst &&
    Holds(s.reqs[s.calls[c].owner], c)
  }

  predicate FlightAlive(s: State, inst: nat, key: Key) {
    key in CacheOf(s, inst).inFlight ==> Alive(s, inst, CacheOf(s, inst).inFlight[key].call)
  }

  predicate WaitAlive(s: State, q: Request) {
    WaitsFor(q.phase).Some? ==> Ended(s, WaitsFor(q.phase).value) || Alive(s, q.inst, WaitsFor(q.phase).value)
  }

  /** A call is settled only after its outcome was handed over. */
  predicate SettlesEnded(s: State, q: Request) {
    match q.phase
    case Executing(InnerSettling(_)) => q.innerCall.Some? && Ended(s, q.innerCall.value)
    case Settling(_) => q.outerCall.Some? && Ended(s, q.outerCall.value)
    case _ => true
  }

  predicate RequestServed(s: State, q: Request) { WaitAlive(s, q) && SettlesEnded(s, q) }

  ghost predicate Served(s: State) {
    (forall r :: r in s.reqs ==> RequestServed(s, s.reqs[r])) && (forall inst, key :: FlightAlive(s, inst, key))
  }

  // ---- what a step does to calls ------------------------------------------------------------------

  /** Calls keep their owner and outcome. */
  predicate CallsGrow(s: State, s': State) {
    forall c :: c in s.calls ==>
      c in s'.calls && s'.calls[c].owner == s.calls[c].owner && (s.calls[c].outcome.Some? ==> s'.calls[c].outcome.Some?)
  }

  /** Every flight was there before, or is a new call of request `r`. */
  predicate FlightsFrom(s: State, s': State, inst: nat, key: Key) {
    var (cache, cache') := (CacheOf(s, inst), CacheOf(s', inst));
    key in cache'.inFlight ==>
      (key in cache.inFlight && cache'.inFlight[key].call == cache.inFlight[key].call) ||
      Alive(s', inst, cache'.inFlight[key].call)
  }

  /** A call may be let go only once it ended and is no longer in flight. */
  predicate LetsGo(s: State, s': State, q: Request, q': Request, c: nat) {
    Holds(q, c) && !Holds(q', c) ==>
      Ended(s, c) && forall key :: key in CacheOf(s', q.inst).inFlight ==> CacheOf(s', q.inst).inFlight[key].call != c
  }

  /** What an action of one request may do. */
  ghost predicate Decent(s: State, r: nat, s': State) {
    r in s.reqs && r in s'.reqs && s'.reqs == s.reqs[r := s'.reqs[r]] && s'.reqs[r].inst == s.reqs[r].inst &&
    CallsGrow(s, s') && (forall c :: LetsGo(s, s', s.reqs[r], s'.reqs[r], c)) &&
    (forall inst, key :: FlightsFrom(s, s', inst, key)) && RequestServed(s', s'.reqs[r])
  }

  lemma StaysAlive(s: State, s': State, r: nat, inst: nat, c: nat)
    requires Decent(s, r, s') && Alive(s, inst, c) && (Holds(s.reqs[r], c) ==> Holds(s'.reqs[r], c))
    ensures Alive(s', inst, c)
  {
    hide RequestServed, FlightsFrom, LetsGo;
  }

  lemma StaysServed(s: State, s': State, r: nat, q: Request)
    requires Decent(s, r, s') && RequestServed(s, q)
    ensures RequestServed(s', q)
  {
    if WaitsFor(q.phase).Some? && !Ended(s, WaitsFor(q.phase).value) {
      var c := WaitsFor(q.phase).value;
      assert LetsGo(s, s', s.reqs[r], s'.reqs[r], c);
      StaysAlive(s, s', r, q.inst, c);
    }
    hide FlightsFrom, LetsGo;
  }

  lemma DecentKeeps(s: State, s': State, r: nat)
    requires Served(s) && Decent(s, r, s')
    ensures Served(s')
  {
    hide RequestServed;
    forall o | o in s'.reqs ensures RequestServed(s', s'.reqs[o]) { if o != r { StaysServed(s, s', r, s.reqs[o]); } }
    forall inst, key ensures FlightAlive(s', inst, key) {
      assert FlightAlive(s, inst, key) && FlightsFrom(s, s', inst, key);
      if key in CacheOf(s', inst).inFlight {
        var c := CacheOf(s', inst).inFlight[key].call;
        if !Alive(s', inst, c) {
          assert LetsGo(s, s', s.reqs[r], s'.reqs[r], c);
          StaysAlive(s, s', r, inst, c);
        }
      }
    }
  }

  // ---- actions that start and end no call -----------------------------------------------------------

  predicate SameHolder(q: Request, q': Request) {
    q'.inst == q.inst && q'.outerCall == q.outerCall && q'.innerCall == q.innerCall
  }

  predicate SameFlight(s: State, s': State, inst: nat, key: Key) {
    var (cache, cache') := (CacheOf(s, inst), CacheOf(s', inst));
    key in cache'.inFlight ==> key in cache.inFlight && cache'.inFlight[key].call == cache.inFlight[key].call
  }

  lemma PlainDecent(s: State, s': State, r: nat)
    requires r in s.reqs && r in s'.reqs && s'.reqs == s.reqs[r := s'.reqs[r]] && SameHolder(s.reqs[r], s'.reqs[r])
    requires s'.calls == s.calls
    requires (forall inst, key :: SameFlight(s, s', inst, key)) && RequestServed(s, s'.reqs[r])
    ensures Decent(s, r, s')
  {
    forall inst, key ensures FlightsFrom(s, s', inst, key) { assert SameFlight(s, s', inst, key); }
    hide SameFlight, FlightsFrom;
  }

  /** Neither waiting nor settling. */
  predicate Free(p: Phase) { WaitsFor(p) == None && !p.Settling? && !(p.Executing? && p.exec.InnerSettling?) }

  /** A request that moves on without the cache. */
  lemma PutDecent(s: State, s': State, r: nat, q': Request)
    requires r in s.reqs && SameHolder(s.reqs[r], q') && Free(q'.phase)
    requires s' == Put(s, r, q').(store := s'.store, ops := s'.ops, ever := s'.ever)
    ensures Decent(s, r, s')
  {
    FreeServed(s, q');
    hide RequestServed, Decent, SameHolder, Free;
    PlainDecent(s, s', r);
  }

  lemma FreeServed(s: State, q: Request)
    requires Free(q.phase)
    ensures RequestServed(s, q)
  {
  }

  lemma QuietFree(s: State, q: Request, action: Action)
    requires Quiet(s, q, action).Some?
    ensures action.Recover? || Free(Quiet(s, q, action).value)
  {
    hide Found, OperationOf, CacheOf, DurableOperation, PollAnswer;
  }

  lemma QuietDecent(s: State, r: nat, action: Action)
    requires Served(s) && r in s.reqs && Quiet(s, s.reqs[r], action).Some?
    ensures Decent(s, r, Put(s, r, s.reqs[r].(phase := Quiet(s, s.reqs[r], action).value)))
  {
    var q, p := s.reqs[r], Quiet(s, s.reqs[r], action).value;
    QuietFree(s, q, action);
    if action.Recover? {
      assert FlightAlive(s, q.inst, OuterKey(q));
      assert RequestServed(s, q.(phase := p));
    } else {
      FreeServed(s, q.(phase := p));
    }
    hide Served, Quiet, RequestServed, Free;
    PlainDecent(s, Put(s, r, q.(phase := p)), r);
  }

  lemma LookingUpDecent(s: State, r: nat, at: int)
    requires r in s.reqs && LookingUp(s, r, s.reqs[r], at).Some?
    ensures Decent(s, r, LookingUp(s, r, s.reqs[r], at).value)
  {
    var s' := LookingUp(s, r, s.reqs[r], at).value;
    hide Servable;
    FreeServed(s, s'.reqs[r]);
    hide Free, RequestServed, AfterLookup, Decent;
    PlainDecent(s, s', r);
  }

  lemma NotingDecent(s: State, r: nat)
    requires r in s.reqs && NotingOperation(s, r, s.reqs[r]).Some?
    ensures Decent(s, r, NotingOperation(s, r, s.reqs[r]).value)
  {
    var s' := NotingOperation(s, r, s.reqs[r]).value;
    FreeServed(s, s'.reqs[r]);
    hide Free, RequestServed, Decent;
    PlainDecent(s, s', r);
  }

  lemma ReservedDecent(s: State, r: nat, fails: bool, applied: bool)
    requires r in s.reqs && Reserved(s, r, s.reqs[r], fails, applied).Some?
    ensures Decent(s, r, Reserved(s, r, s.reqs[r], fails, applied).value)
  {
    hide Decent, Minted;
    var s' := Reserved(s, r, s.reqs[r], fails, applied).value;
    PutDecent(s, s', r, s'.reqs[r]);
  }

  lemma RecordsDecent(s: State, r: nat, fails: bool, applied: bool)
    requires r in s.reqs && RecordsDurably(s, r, s.reqs[r], fails, applied).Some?
    ensures Decent(s, r, RecordsDurably(s, r, s.reqs[r], fails, applied).value)
  {
    hide MayRecord, Decent;
    var s' := RecordsDurably(s, r, s.reqs[r], fails, applied).value;
    PutDecent(s, s', r, s'.reqs[r]);
  }

  lemma SentDecent(s: State, r: nat)
    requires r in s.reqs && Sent(s, r, s.reqs[r]).Some?
    ensures Decent(s, r, Sent(s, r, s.reqs[r]).value)
  {
    hide Decent;
    var s' := Sent(s, r, s.reqs[r]).value;
    PutDecent(s, s', r, s'.reqs[r]);
  }

  lemma AnsweredDecent(s: State, r: nat, response: Response)
    requires r in s.reqs && Answered(s, r, s.reqs[r], response).Some?
    ensures Decent(s, r, Answered(s, r, s.reqs[r], response).value)
  {
    hide MayName, Decent;
    var s' := Answered(s, r, s.reqs[r], response).value;
    PutDecent(s, s', r, s'.reqs[r]);
  }

  lemma ReleasedDecent(s: State, r: nat, fails: bool, applied: bool)
    requires r in s.reqs && Released(s, r, s.reqs[r], fails, applied).Some?
    ensures Decent(s, r, Released(s, r, s.reqs[r], fails, applied).value)
  {
    hide Decent, Releases, Without;
    var s' := Released(s, r, s.reqs[r], fails, applied).value;
    PutDecent(s, s', r, s'.reqs[r]);
  }

  // ---- entering, returning, settling ------------------------------------------------------------------

  /** What Do leads to waits only for the call it joined, and settles nothing. */
  lemma ProceedingWaits(q: Request, found: Entered<nat, string>, call: nat)
    requires EnterKey(q).Some?
    ensures var q' := Proceeding(q, found, call);
      (WaitsFor(q'.phase) == if found.Join? then Some(found.call) else None) && !q'.phase.Settling? &&
      !(q'.phase.Executing? && q'.phase.exec.InnerSettling?)
  {
  }

  lemma JoiningDecent(s: State, r: nat, call: nat, at: int)
    requires Served(s) && r in s.reqs && Entering(s, r, s.reqs[r], call, at).Some?
    requires Found(CacheOf(s, s.reqs[r].inst), EnterKey(s.reqs[r]).value, at) != Nothing
    ensures Decent(s, r, Entering(s, r, s.reqs[r], call, at).value)
  {
    var q, s' := s.reqs[r], Entering(s, r, s.reqs[r], call, at).value;
    var key, cache := EnterKey(q).value, CacheOf(s, q.inst);
    var found := Found(cache, key, at);
    assert FlightAlive(s, q.inst, key);
    assert found.Join? ==> Alive(s, q.inst, found.call);
    hide Served, Found, Alive, EnterKey;
    ProceedingFrame(q, found, call);
    ProceedingWaits(q, found, call);
    hide Proceeding;
    assert RequestServed(s, s'.reqs[r]);
    hide Decent, RequestServed;
    PlainDecent(s, s', r);
  }

  lemma StartingDecent(s: State, r: nat, call: nat, at: int)
    requires Served(s) && r in s.reqs && Entering(s, r, s.reqs[r], call, at).Some?
    requires Found(CacheOf(s, s.reqs[r].inst), EnterKey(s.reqs[r]).value, at) == Nothing
    requires if EnterKey(s.reqs[r]) == Some(OuterKey(s.reqs[r])) then s.reqs[r].outerCall == None
      else s.reqs[r].innerCall == None
    ensures Decent(s, r, Entering(s, r, s.reqs[r], call, at).value)
  {
    var q, s' := s.reqs[r], Entering(s, r, s.reqs[r], call, at).value;
    hide Served, Found, EnterKey;
    var key, cache := EnterKey(q).value, CacheOf(s, q.inst);
    ProceedingFrame(q, Nothing, call);
    ProceedingWaits(q, Nothing, call);
    assert s' == PutCache(s, r, s'.reqs[r], Started(Dropped(cache, key, at), key, call))
                 .(calls := s.calls[call := CallInfo(key, r, None)]);
    hide Proceeding, Entering;
    StartedFlights(s, s', r, key, call, at);
    hide FlightsFrom, Alive, Dropped, Started, CacheOf;
    assert RequestServed(s', s'.reqs[r]);
    hide RequestServed;
  }

  lemma StartedFlights(s: State, s': State, r: nat, key: Key, call: nat, at: int)
    requires r in s.reqs && r in s'.reqs && s'.reqs[r].inst == s.reqs[r].inst && Holds(s'.reqs[r], call)
    requires s' == PutCache(s, r, s'.reqs[r], Started(Dropped(CacheOf(s, s.reqs[r].inst), key, at), key, call))
                   .(calls := s.calls[call := CallInfo(key, r, None)])
    ensures forall inst, k :: FlightsFrom(s, s', inst, k)
  {
    hide Holds;
  }

  /** A request holds no call of the kind it is about to start. */
  lemma StartsUnheld(s: State, r: nat)
    requires Inv(s) && r in s.reqs && EnterKey(s.reqs[r]).Some?
    ensures if EnterKey(s.reqs[r]) == Some(OuterKey(s.reqs[r])) then s.reqs[r].outerCall == None
      else s.reqs[r].innerCall == None
  {
    assert ReqOk(s, r);
    hide Inv, PhaseOk, WaitOk, OwnOk, LiveOk;
  }

  lemma EnteringDecent(s: State, r: nat, call: nat, at: int)
    requires Inv(s) && Served(s) && r in s.reqs && Entering(s, r, s.reqs[r], call, at).Some?
    ensures Decent(s, r, Entering(s, r, s.reqs[r], call, at).value)
  {
    hide Inv, EnterKey, Served, Decent;
    assert EnterKey(s.reqs[r]).Some?;
    hide Entering, Found, CacheOf;
    StartsUnheld(s, r);
    if Found(CacheOf(s, s.reqs[r].inst), EnterKey(s.reqs[r]).value, at) == Nothing { StartingDecent(s, r, call, at); }
    else { JoiningDecent(s, r, call, at); }
  }

  lemma EndingServed(s: State, q: Request)
    requires Ending(q).Some? && Ending(q).value.0.Some? && Ended(s, Ending(q).value.0.value)
    ensures RequestServed(s, q.(phase := Ending(q).value.3))
  {
  }

  lemma ReturnsDecent(s: State, r: nat)
    requires r in s.reqs && CallReturns(s, r, s.reqs[r]).Some?
    ensures Decent(s, r, CallReturns(s, r, s.reqs[r]).value)
  {
    var q, s' := s.reqs[r], CallReturns(s, r, s.reqs[r]).value;
    CallReturnsFacts(s, r, q);
    EndingServed(s', q);
    hide CallReturns, Ending, RequestServed;
  }

  /** A call is in flight under one key only. */
  lemma OneKeyPerCall(s: State, inst: nat, key: Key, k: Key)
    requires Inv(s) && key in CacheOf(s, inst).inFlight && k in CacheOf(s, inst).inFlight && k != key
    ensures CacheOf(s, inst).inFlight[k].call != CacheOf(s, inst).inFlight[key].call
  {
    assert CacheOk(s, inst, key) && CacheOk(s, inst, k);
    hide Inv;
  }

  /** What settling lets go, and that it has ended. */
  lemma SettledCall(s: State, q: Request, key: Key, q': Request)
    requires SettlingKey(q) == Some(key) && SettlesEnded(s, q) && RunsOuter(q.phase)
    requires if key == OuterKey(q) then q'.outerCall == None && q'.innerCall == q.innerCall == None
      else q'.innerCall == None && q'.outerCall == q.outerCall
    ensures var held := if key == OuterKey(q) then q.outerCall else q.innerCall;
      held.Some? && Ended(s, held.value) && forall c :: Holds(q, c) && !Holds(q', c) ==> c == held.value
  {
  }

  lemma SettlesServed(s: State, r: nat, ttl: int, at: int, later: int)
    requires r in s.reqs && CallSettles(s, r, s.reqs[r], ttl, at, later).Some?
    ensures RequestServed(s, CallSettles(s, r, s.reqs[r], ttl, at, later).value.reqs[r]) && RunsOuter(s.reqs[r].phase)
  {
    hide Settled, CacheOf;
  }

  lemma SettlesDecent(s: State, r: nat, ttl: int, at: int, later: int)
    requires Inv(s) && Served(s) && r in s.reqs && CallSettles(s, r, s.reqs[r], ttl, at, later).Some?
    ensures Decent(s, r, CallSettles(s, r, s.reqs[r], ttl, at, later).value)
  {
    var q, s' := s.reqs[r], CallSettles(s, r, s.reqs[r], ttl, at, later).value;
    CallSettlesFacts(s, r, ttl, at, later);
    SettlesServed(s, r, ttl, at, later);
    Facts(s, r);
    assert RequestServed(s, q);
    hide CallSettles, Served, Local, WaitOk, LiveOk, SlotOk, CacheOk, RunsOuter;
    var key := SettlingKey(q).value;
    SettledCall(s, q, key, s'.reqs[r]);
    forall k | k in CacheOf(s, q.inst).inFlight && k != key
      ensures CacheOf(s, q.inst).inFlight[k].call != CacheOf(s, q.inst).inFlight[key].call
    {
      OneKeyPerCall(s, q.inst, key, k);
    }
    hide Inv, SettlingKey, RequestServed;
    SettlingDecent(s, s', r, key, ttl, at, later);
  }

  lemma SettlingDecent(s: State, s': State, r: nat, key: Key, ttl: int, at: int, later: int)
    requires r in s.reqs && r in s'.reqs && key in CacheOf(s, s.reqs[r].inst).inFlight
    requires s'.reqs[r].inst == s.reqs[r].inst
    requires exists o :: s' == PutCache(s, r, s'.reqs[r], Settled(CacheOf(s, s.reqs[r].inst), key, o, ttl, at, later))
    requires forall k :: k in CacheOf(s, s.reqs[r].inst).inFlight && k != key ==>
      CacheOf(s, s.reqs[r].inst).inFlight[k].call != CacheOf(s, s.reqs[r].inst).inFlight[key].call
    requires forall c :: Holds(s.reqs[r], c) && !Holds(s'.reqs[r], c) ==>
      Ended(s, c) && c == CacheOf(s, s.reqs[r].inst).inFlight[key].call
    requires RequestServed(s', s'.reqs[r])
    ensures Decent(s, r, s')
  {
    hide Swept, RequestServed, Holds, Alive;
  }

  // ---- every step, every run --------------------------------------------------------------------------

  lemma ActsServed(s: State, r: nat, action: Action)
    requires Inv(s) && Served(s) && r in s.reqs && Acts(s, r, s.reqs[r], action).Some?
    ensures Served(Acts(s, r, s.reqs[r], action).value)
  {
    hide Inv, Served, Decent, LookingUp, Entering, Reserved, RecordsDurably, NotingOperation;
    hide Sent, Answered, CallReturns, CallSettles, Released, Quiet;
    match action {
      case Lookup(at) => LookingUpDecent(s, r, at);
      case EnterDo(call, at) => EnteringDecent(s, r, call, at);
      case Reserve(fails, applied) => ReservedDecent(s, r, fails, applied);
      case RecordOperation(fails, applied) => RecordsDecent(s, r, fails, applied);
      case NoteOperation => NotingDecent(s, r);
      case Send => SentDecent(s, r);
      case Respond(response) => AnsweredDecent(s, r, response);
      case Return => ReturnsDecent(s, r);
      case Settle(ttl, at, later) => SettlesDecent(s, r, ttl, at, later);
      case Release(fails, applied) => ReleasedDecent(s, r, fails, applied);
      case _ => QuietDecent(s, r, action);
    }
    DecentKeeps(s, Acts(s, r, s.reqs[r], action).value, r);
  }

  lemma ArrivedServed(s: State, r: nat, inst: nat, slot: Slot, soft: bool, capped: bool)
    requires Served(s) && Arrived(s, r, inst, slot, soft, capped).Some?
    ensures Served(Arrived(s, r, inst, slot, soft, capped).value)
  {
    var s' := Arrived(s, r, inst, slot, soft, capped).value;
    forall inst, key ensures FlightAlive(s', inst, key) { assert FlightAlive(s, inst, key); }
    forall o | o in s'.reqs ensures RequestServed(s', s'.reqs[o]) { if o != r { assert RequestServed(s, s.reqs[o]); } }
  }

  lemma DeadServed(s: State, q: Request)
    requires !Working(q)
    ensures RequestServed(s, q)
  {
  }

  lemma CrashingServed(s: State, inst: nat)
    requires Served(s)
    ensures Served(Crashing(s, inst))
  {
    var s' := Crashing(s, inst);
    forall i, key ensures FlightAlive(s', i, key) { assert FlightAlive(s, i, key); }
    forall o | o in s'.reqs ensures RequestServed(s', s'.reqs[o]) {
      assert RequestServed(s, s.reqs[o]);
      if s.reqs[o].inst == inst { DeadServed(s', s'.reqs[o]); }
    }
  }

  /** The requests run the same calls in the same phases. */
  lemma SamePhasesServed(s: State, s': State)
    requires Served(s) && s'.calls == s.calls && s'.caches == s.caches && s'.reqs.Keys == s.reqs.Keys
    requires forall r :: r in s.reqs ==> SameHolder(s.reqs[r], s'.reqs[r]) && s'.reqs[r].phase == s.reqs[r].phase
    ensures Served(s')
  {
    forall i, key ensures FlightAlive(s', i, key) { assert FlightAlive(s, i, key); }
    forall o | o in s'.reqs ensures RequestServed(s', s'.reqs[o]) { assert RequestServed(s, s.reqs[o]); }
  }

  lemma StepServed(s: State, step: Step)
    requires Inv(s) && Served(s) && Next(s, step).Some?
    ensures Served(Next(s, step).value)
  {
    hide Inv, Served, Arrived, Acts, Crashing;
    match step {
      case Arrive(r, inst, slot, soft, capped) => ArrivedServed(s, r, inst, slot, soft, capped);
      case Act(r, action) => ActsServed(s, r, action);
      case Crash(inst) => CrashingServed(s, inst);
      case Lapse(slot) => SamePhasesServed(s, Next(s, step).value);
      case Reap(slot) => SamePhasesServed(s, Next(s, step).value);
    }
  }

  lemma {:induction false} ReachableServed(states: seq<State>, steps: seq<Step>, k: nat)
    requires Run(states, steps) && k < |states|
    ensures Inv(states[k]) && Served(states[k])
  {
    hide Next;
    if k > 0 {
      hide Inv, Served;
      ReachableServed(states, steps, k - 1);
      assert Next(states[k - 1], steps[k - 1]) == Some(states[k]);
      StepKeeps(states[k - 1], steps[k - 1]);
      StepServed(states[k - 1], steps[k - 1]);
    } else {
      Reachable(states, steps, 0);
      hide Inv;
    }
  }

  // ---- who is waited for ------------------------------------------------------------------------------

  /** `owner` runs the call that `q` waits for. */
  predicate AwaitedBy(owner: Request, q: Request, c: nat) {
    owner.inst == q.inst && Working(owner) && owner.slot.image == q.slot.image &&
    if q.phase.OuterWait? then owner.outerCall == Some(c) && owner.slot == q.slot && !owner.phase.OuterWait?
    else owner.innerCall == Some(c) && owner.phase.Executing?
  }

  /**
   In every reachable state, the call a blocked request waits for is being run by another request of the
   same instance that is neither finished nor crashed; one that runs a provider execution waits for nobody.
   */
  lemma AwaitedCallIsRun(states: seq<State>, steps: seq<Step>, k: nat, r: nat)
    requires Run(states, steps) && k < |states| && r in states[k].reqs && Blocked(states[k], states[k].reqs[r])
    ensures var s, q := states[k], states[k].reqs[r];
      var c := WaitsFor(q.phase).value;
      c in s.calls && s.calls[c].owner in s.reqs && s.calls[c].owner != r && AwaitedBy(s.reqs[s.calls[c].owner], q, c)
  {
    ReachableServed(states, steps, k);
    var s, q := states[k], states[k].reqs[r];
    assert RequestServed(s, q) && ReqOk(s, r);
    var o := s.calls[WaitsFor(q.phase).value].owner;
    assert ReqOk(s, o);
    hide Run, Inv, Served, PhaseOk, LiveOk;
  }

  /**
   While anybody is unfinished, it, the request it waits for, or the one that one waits for can act
   without giving up.
   */
  lemma SomebodyActs(states: seq<State>, steps: seq<Step>, k: nat, r: nat)
    requires Run(states, steps) && k < |states| && r in states[k].reqs && Working(states[k].reqs[r])
    ensures exists o, action ::
      o in states[k].reqs && states[k].reqs[o].inst == states[k].reqs[r].inst && action != Abandon &&
      Next(states[k], Act(o, action)).Some?
  {
    hide Run, Next;
    var s, o := states[k], r;
    if Blocked(s, s.reqs[o]) {
      AwaitedCallIsRun(states, steps, k, o);
      o := s.calls[WaitsFor(s.reqs[o].phase).value].owner;
      if Blocked(s, s.reqs[o]) {
        AwaitedCallIsRun(states, steps, k, o);
        o := s.calls[WaitsFor(s.reqs[o].phase).value].owner;
      }
    }
    NeverStuck(states, steps, k, o);
  }

  // ---- everybody can be finished ------------------------------------------------------------------------

  /** An upper bound on the steps left of all requests numbered below `n`. */
  function StepsLeft(reqs: map<nat, Request>, n: nat): nat {
    if n == 0 then 0 else StepsLeft(reqs, n - 1) + if n - 1 in reqs then Rank(reqs[n - 1].phase) else 0
  }

  lemma {:induction false} StepsLeftFall(reqs: map<nat, Request>, reqs': map<nat, Request>, n: nat, o: nat)
    requires o in reqs && o in reqs' && reqs' == reqs[o := reqs'[o]] && Rank(reqs'[o].phase) < Rank(reqs[o].phase)
    ensures if o < n then StepsLeft(reqs', n) < StepsLeft(reqs, n) else StepsLeft(reqs', n) == StepsLeft(reqs, n)
  {
    hide Rank;
    if n > 0 { StepsLeftFall(reqs, reqs', n - 1, o); }
  }

  lemma OneMoreStep(states: seq<State>, steps: seq<Step>, step: Step)
    requires Run(states, steps) && Next(states[|steps|], step).Some?
    ensures Run(states + [Next(states[|steps|], step).value], steps + [step])
  {
    hide Next, Initial;
  }

  lemma ActLowers(s: State, o: nat, action: Action, n: nat)
    requires Next(s, Act(o, action)).Some? && o < n
    ensures var s' := Next(s, Act(o, action)).value;
      StepsLeft(s'.reqs, n) < StepsLeft(s.reqs, n) && s'.reqs.Keys == s.reqs.Keys
  {
    EveryActionProgresses(s, o, action);
    StepsLeftFall(s.reqs, Next(s, Act(o, action)).value.reqs, n, o);
    hide Acts, Rank, StepsLeft;
  }

  /**
   From every reachable state, actions of the requests that are there, none of them giving up, lead to a
   state in which every one of them is finished; there are no more of them than steps were left.
   */
  lemma {:induction false} EverybodyFinishes(states: seq<State>, steps: seq<Step>, n: nat)
    returns (states': seq<State>, steps': seq<Step>)
    requires Run(states, steps) && forall r :: r in states[|steps|].reqs ==> r < n
    ensures Run(states', steps') && states <= states' && steps <= steps'
    ensures |steps'| - |steps| <= StepsLeft(states[|steps|].reqs, n)
    ensures forall k :: |steps| <= k < |steps'| ==> steps'[k].Act? && steps'[k].action != Abandon
    ensures states'[|steps'|].reqs.Keys == states[|steps|].reqs.Keys
    ensures forall r :: r in states'[|steps'|].reqs ==> !Working(states'[|steps'|].reqs[r])
    decreases StepsLeft(states[|steps|].reqs, n)
  {
    hide Run, Next, StepsLeft;
    RunLength(states, steps);
    var s := states[|steps|];
    if r :| r in s.reqs && Working(s.reqs[r]) {
      SomebodyActs(states, steps, |steps|, r);
      var o, action :| o in s.reqs && action != Abandon && Next(s, Act(o, action)).Some?;
      OneMoreStep(states, steps, Act(o, action));
      ActLowers(s, o, action, n);
      var more, done := states + [Next(s, Act(o, action)).value], steps + [Act(o, action)];
      states', steps' := EverybodyFinishes(more, done, n);
      assert steps'[|steps|] == done[|steps|];
    } else {
      states', steps' := states, steps;
    }
  }

  lemma RunLength(states: seq<State>, steps: seq<Step>)
    requires Run(states, steps)
    ensures |states| == |steps| + 1
  {
    hide Next, Initial;
  }
}
