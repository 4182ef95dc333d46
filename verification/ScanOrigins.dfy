/**
 Where results come from: no request is answered with an analysis that no poll brought, and whoever waits
 for a call gets exactly what the request that ran it handed over
 (cmd/ocr/main.go:502-574, cmd/ocr/scan_coalesce.go:62-121).
 */
module ScanOrigins {
  import opened Wrappers
  import opened Coalescer
  import opened ScanProtocol
  import opened ScanSafety
  import opened ScanProgress
  import opened ScanSuccess

  // ---- successes carry what was polled ------------------------------------------------------------

  /** A success carries one of the images in `polled`. */
  predicate FromPolled(polled: set<string>, o: Answer) {
    o.err == None ==> o.result.Some? && o.result.value in polled
  }

  predicate PhaseFromPolled(polled: set<string>, p: Phase) {
    match p
    case Looking(CapHas(v)) => v in polled
    case Admitting(Replaying(v)) => v in polled
    case Admitting(ReplayRecording(v, _)) => v in polled
    case Owning(AfterInner(_, o)) => FromPolled(polled, o)
    case Owning(JoinRecording(o, _)) => FromPolled(polled, o)
    case Owning(Releasing(o)) => FromPolled(polled, o)
    case Executing(InnerReturning(o)) => FromPolled(polled, o)
    case Executing(InnerSettling(o)) => FromPolled(polled, o)
    case Returning(o) => FromPolled(polled, o)
    case Settling(o) => FromPolled(polled, o)
    case Finished(o) => FromPolled(polled, o)
    case _ => true
  }

  predicate CallFromPolled(polled: set<string>, s: State, c: nat) {
    c in s.calls && s.calls[c].outcome.Some? ==> FromPolled(polled, s.calls[c].outcome.value)
  }

  predicate DoneFromPolled(polled: set<string>, cache: ScanCache, key: Key) {
    key in cache.done && cache.done[key].result.Some? ==> cache.done[key].result.value in polled
  }

  predicate CacheFromPolled(polled: set<string>, s: State, inst: nat, key: Key) {
    DoneFromPolled(polled, CacheOf(s, inst), key)
  }

  ghost predicate AllFromPolled(polled: set<string>, s: State) {
    (forall r :: r in s.reqs ==> PhaseFromPolled(polled, s.reqs[r].phase)) &&
    (forall c :: CallFromPolled(polled, s, c)) &&
    (forall inst, key :: CacheFromPolled(polled, s, inst, key))
  }

  /** The step is a successful poll of an operation by a request for the image. */
  predicate BringsAnalysis(s: State, step: Step, image: string) {
    step.Act? && step.action == Poll(true) && step.r in s.reqs && PolledOperation(s.reqs[step.r].phase).Some? &&
    s.reqs[step.r].slot.image == image
  }

  function Delivered(s: State, step: Step): (images: set<string>)
    ensures forall image :: image in images <==> BringsAnalysis(s, step, image)
  {
    if step.Act? && step.r in s.reqs && BringsAnalysis(s, step, s.reqs[step.r].slot.image)
    then {s.reqs[step.r].slot.image} else {}
  }

  lemma RecoversFromPolled(s: State, q: Request, at: int, polled: set<string>)
    requires CacheFromPolled(polled, s, q.inst, OuterKey(q))
    ensures PhaseFromPolled(polled, Recovering(s, q, at))
  {
    hide CacheOf;
  }

  lemma WakesFromPolled(s: State, q: Request, polled: set<string>)
    requires Waking(s, q).Some? && CallFromPolled(polled, s, WaitsFor(q.phase).value)
    ensures PhaseFromPolled(polled, Waking(s, q).value)
  {
  }

  lemma PollsFromPolled(s: State, r: nat, succeeds: bool, polled: set<string>)
    requires r in s.reqs && Local(s.ever, s.ops, s.reqs[r]) && Polled(s, s.reqs[r], succeeds).Some?
    ensures PhaseFromPolled(polled + Delivered(s, Act(r, Poll(succeeds))), Polled(s, s.reqs[r], succeeds).value)
  {
  }

  lemma KeepsFromPolled(s: State, q: Request, action: Action, polled: set<string>)
    requires Quiet(s, q, action).Some? && PhaseFromPolled(polled, q.phase)
    requires !action.Recover? && !action.Wake? && !action.Poll?
    ensures PhaseFromPolled(polled, Quiet(s, q, action).value)
  {
    hide OperationOf, CacheOf, DurableOperation, Recovering, Waking, Polled;
  }

  lemma GrowsFromPolled(p: Phase, polled: set<string>, more: set<string>)
    requires PhaseFromPolled(polled, p)
    ensures PhaseFromPolled(polled + more, p)
  {
  }

  lemma QuietFromPolled(s: State, r: nat, action: Action, polled: set<string>)
    requires Inv(s) && r in s.reqs && Quiet(s, s.reqs[r], action).Some? && AllFromPolled(polled, s)
    ensures PhaseFromPolled(polled + Delivered(s, Act(r, action)), Quiet(s, s.reqs[r], action).value)
  {
    var q := s.reqs[r];
    Facts(s, r);
    hide Inv, PhaseFromPolled, CacheFromPolled, CallFromPolled, Delivered, CacheOk, SlotOk, Local;
    hide Recovering, Polled, Abandoning, Confirming, Reading, Checking;
    match action {
      case Recover(at) => RecoversFromPolled(s, q, at, polled);
      case Wake => WakesFromPolled(s, q, polled);
      case Poll(succeeds) => PollsFromPolled(s, r, succeeds, polled);
      case _ => KeepsFromPolled(s, q, action, polled);
    }
    if !action.Poll? { GrowsFromPolled(Quiet(s, q, action).value, polled, Delivered(s, Act(r, action))); }
  }

  lemma MoreFromPolled(s: State, polled: set<string>, more: set<string>)
    requires AllFromPolled(polled, s)
    ensures AllFromPolled(polled + more, s)
  {
    forall c ensures CallFromPolled(polled + more, s, c) { assert CallFromPolled(polled, s, c); }
    forall inst, key ensures CacheFromPolled(polled + more, s, inst, key) {
      assert CacheFromPolled(polled, s, inst, key);
    }
  }

  /** Request `r` and the parts it shares moved. */
  lemma MovedFromPolled(s: State, s': State, r: nat, polled: set<string>)
    requires AllFromPolled(polled, s) && r in s.reqs && r in s'.reqs && s'.reqs == s.reqs[r := s'.reqs[r]]
    requires PhaseFromPolled(polled, s'.reqs[r].phase)
    requires forall c :: c in s'.calls ==>
      (c in s.calls && s'.calls[c].outcome == s.calls[c].outcome) || CallFromPolled(polled, s', c)
    requires forall inst :: inst != s.reqs[r].inst ==> CacheOf(s', inst) == CacheOf(s, inst)
    requires forall key :: DoneFromPolled(polled, CacheOf(s', s.reqs[r].inst), key)
    ensures AllFromPolled(polled, s')
  {
    hide PhaseFromPolled, CacheOf;
    forall c ensures CallFromPolled(polled, s', c) { assert CallFromPolled(polled, s, c); }
    forall inst, key ensures CacheFromPolled(polled, s', inst, key) {
      assert CacheFromPolled(polled, s, inst, key);
      assert DoneFromPolled(polled, CacheOf(s', s.reqs[r].inst), key);
    }
  }

  lemma QuietStep(s: State, r: nat, action: Action, polled: set<string>)
    requires Inv(s) && r in s.reqs && Quiet(s, s.reqs[r], action).Some? && AllFromPolled(polled, s)
    ensures var s' := Put(s, r, s.reqs[r].(phase := Quiet(s, s.reqs[r], action).value));
      AllFromPolled(polled + Delivered(s, Act(r, action)), s')
  {
    var all := polled + Delivered(s, Act(r, action));
    QuietFromPolled(s, r, action, polled);
    MoreFromPolled(s, polled, Delivered(s, Act(r, action)));
    hide Inv, Quiet, Delivered, PhaseFromPolled;
    var s' := Put(s, r, s.reqs[r].(phase := Quiet(s, s.reqs[r], action).value));
    SameCache(s, s', s.reqs[r].inst, all);
    MovedFromPolled(s, s', r, all);
  }

  lemma SameCache(s: State, s': State, inst: nat, polled: set<string>)
    requires AllFromPolled(polled, s) && s'.caches == s.caches
    ensures forall key :: DoneFromPolled(polled, CacheOf(s', inst), key)
    ensures forall other :: CacheOf(s', other) == CacheOf(s, other)
  {
    hide PhaseFromPolled;
    forall key ensures DoneFromPolled(polled, CacheOf(s', inst), key) {
      assert CacheFromPolled(polled, s, inst, key);
    }
  }

  // ---- the cache -----------------------------------------------------------------------------------

  lemma LookedUpFromPolled(polled: set<string>, cache: ScanCache, key: Key, at: int, k: Key)
    requires DoneFromPolled(polled, cache, k)
    ensures DoneFromPolled(polled, LookedUp(cache, key, at), k)
  {
  }

  lemma EnteredFromPolled(polled: set<string>, cache: ScanCache, key: Key, call: nat, at: int, k: Key)
    requires DoneFromPolled(polled, cache, k)
    ensures DoneFromPolled(polled, Dropped(cache, key, at), k)
    ensures DoneFromPolled(polled, Started(Dropped(cache, key, at), key, call), k)
  {
  }

  lemma SettledFromPolled(polled: set<string>, cache: ScanCache, key: Key, o: Answer, ttl: int, at: int, later: int,
                          k: Key)
    requires key in cache.inFlight && DoneFromPolled(polled, cache, k) && FromPolled(polled, o)
    ensures DoneFromPolled(polled, Settled(cache, key, o, ttl, at, later), k)
  {
  }

  lemma LookingUpStep(s: State, r: nat, at: int, polled: set<string>)
    requires AllFromPolled(polled, s) && r in s.reqs && LookingUp(s, r, s.reqs[r], at).Some?
    ensures AllFromPolled(polled, LookingUp(s, r, s.reqs[r], at).value)
  {
    var q, s' := s.reqs[r], LookingUp(s, r, s.reqs[r], at).value;
    var cache := CacheOf(s, q.inst);
    assert CacheFromPolled(polled, s, q.inst, InnerKey(q));
    assert PhaseFromPolled(polled, s'.reqs[r].phase);
    assert CacheOf(s', q.inst) == LookedUp(cache, InnerKey(q), at);
    forall k ensures DoneFromPolled(polled, CacheOf(s', q.inst), k) {
      assert CacheFromPolled(polled, s, q.inst, k);
      LookedUpFromPolled(polled, cache, InnerKey(q), at, k);
    }
    assert forall inst :: inst != q.inst ==> CacheOf(s', inst) == CacheOf(s, inst);
    hide LookedUp, PhaseFromPolled, AllFromPolled, DoneFromPolled, CacheOf;
    MovedFromPolled(s, s', r, polled);
  }

  lemma FoundFromPolled(s: State, q: Request, key: Key, call: nat, at: int, polled: set<string>)
    requires AllFromPolled(polled, s) && EnterKey(q) == Some(key)
    ensures PhaseFromPolled(polled, Proceeding(q, Found(CacheOf(s, q.inst), key, at), call).phase)
  {
    assert CacheFromPolled(polled, s, q.inst, key);
    var found := Found(CacheOf(s, q.inst), key, at);
    assert found.Replay? ==> found.result in polled;
    hide AllFromPolled, CacheOf, Found;
    ProceedsFromPolled(q, found, call, polled);
  }

  lemma ProceedsFromPolled(q: Request, found: Entered<nat, string>, call: nat, polled: set<string>)
    requires EnterKey(q).Some? && (found.Replay? ==> found.result in polled)
    ensures PhaseFromPolled(polled, Proceeding(q, found, call).phase)
  {
  }

  lemma EnteringStep(s: State, r: nat, call: nat, at: int, polled: set<string>)
    requires AllFromPolled(polled, s) && r in s.reqs && Entering(s, r, s.reqs[r], call, at).Some?
    ensures AllFromPolled(polled, Entering(s, r, s.reqs[r], call, at).value)
  {
    var q, s' := s.reqs[r], Entering(s, r, s.reqs[r], call, at).value;
    var cache, key := CacheOf(s, q.inst), EnterKey(q).value;
    var found := Found(cache, key, at);
    FoundFromPolled(s, q, key, call, at, polled);
    assert CacheOf(s', q.inst) ==
      if found == Nothing then Started(Dropped(cache, key, at), key, call) else Dropped(cache, key, at);
    assert s'.reqs == s.reqs[r := Proceeding(q, found, call)];
    assert forall inst :: inst != q.inst ==> CacheOf(s', inst) == CacheOf(s, inst);
    assert forall c :: c in s'.calls ==>
      (c in s.calls && s'.calls[c].outcome == s.calls[c].outcome) || CallFromPolled(polled, s', c);
    hide PhaseFromPolled, DoneFromPolled, CacheOf, Proceeding, Found, Dropped, Started, EnterKey, Entering;
    forall k ensures DoneFromPolled(polled, CacheOf(s', q.inst), k) {
      assert CacheFromPolled(polled, s, q.inst, k);
      EnteredFromPolled(polled, cache, key, call, at, k);
    }
    MovedFromPolled(s, s', r, polled);
  }

  lemma NotingStep(s: State, r: nat, polled: set<string>)
    requires AllFromPolled(polled, s) && r in s.reqs && NotingOperation(s, r, s.reqs[r]).Some?
    ensures AllFromPolled(polled, NotingOperation(s, r, s.reqs[r]).value)
  {
    var q, s' := s.reqs[r], NotingOperation(s, r, s.reqs[r]).value;
    assert PhaseFromPolled(polled, s'.reqs[r].phase);
    assert CacheOf(s', q.inst).done == CacheOf(s, q.inst).done;
    assert forall inst :: inst != q.inst ==> CacheOf(s', inst) == CacheOf(s, inst);
    hide PhaseFromPolled, CacheOf, NotingOperation;
    forall k ensures DoneFromPolled(polled, CacheOf(s', q.inst), k) { assert CacheFromPolled(polled, s, q.inst, k); }
    MovedFromPolled(s, s', r, polled);
  }

  lemma ReturnsStep(s: State, r: nat, polled: set<string>)
    requires AllFromPolled(polled, s) && r in s.reqs && CallReturns(s, r, s.reqs[r]).Some?
    ensures AllFromPolled(polled, CallReturns(s, r, s.reqs[r]).value)
  {
    var q, s' := s.reqs[r], CallReturns(s, r, s.reqs[r]).value;
    CallReturnsFacts(s, r, q);
    assert PhaseFromPolled(polled, q.phase);
    assert PhaseFromPolled(polled, s'.reqs[r].phase);
    assert forall c :: c in s'.calls ==>
      (c in s.calls && s'.calls[c].outcome == s.calls[c].outcome) || CallFromPolled(polled, s', c);
    hide PhaseFromPolled, CallReturns, AllFromPolled;
    SameCache(s, s', q.inst, polled);
    MovedFromPolled(s, s', r, polled);
  }

  lemma LeavesFromPolled(q: Request, polled: set<string>)
    requires Leaving(q).Some? && PhaseFromPolled(polled, q.phase)
    ensures var (_, o, q') := Leaving(q).value;
      FromPolled(polled, o) && PhaseFromPolled(polled, q'.phase) && q'.inst == q.inst
  {
  }

  lemma SettlesStep(s: State, r: nat, ttl: int, at: int, later: int, polled: set<string>)
    requires AllFromPolled(polled, s) && r in s.reqs && CallSettles(s, r, s.reqs[r], ttl, at, later).Some?
    ensures AllFromPolled(polled, CallSettles(s, r, s.reqs[r], ttl, at, later).value)
  {
    var q, s' := s.reqs[r], CallSettles(s, r, s.reqs[r], ttl, at, later).value;
    var (key, o, q') := Leaving(q).value;
    var cache := CacheOf(s, q.inst);
    assert PhaseFromPolled(polled, q.phase);
    hide PhaseFromPolled, Leaving, Settled, DoneFromPolled;
    LeavesFromPolled(q, polled);
    assert CacheOf(s', q.inst) == Settled(cache, key, o, ttl, at, later);
    assert forall inst :: inst != q.inst ==> CacheOf(s', inst) == CacheOf(s, inst);
    hide CacheOf, CallSettles;
    forall k ensures DoneFromPolled(polled, CacheOf(s', q.inst), k) {
      assert CacheFromPolled(polled, s, q.inst, k);
      SettledFromPolled(polled, cache, key, o, ttl, at, later, k);
    }
    MovedFromPolled(s, s', r, polled);
  }

  // ---- the store and the provider --------------------------------------------------------------------

  /** Neither the cache nor a call changed, and the request carries what it carried, or an error. */
  lemma PhaseStep(s: State, s': State, r: nat, polled: set<string>)
    requires AllFromPolled(polled, s) && r in s.reqs && r in s'.reqs && s'.reqs == s.reqs[r := s'.reqs[r]]
    requires s'.caches == s.caches && s'.calls == s.calls
    requires PhaseFromPolled(polled, s.reqs[r].phase) ==> PhaseFromPolled(polled, s'.reqs[r].phase)
    ensures AllFromPolled(polled, s')
  {
    hide PhaseFromPolled;
    SameCache(s, s', s.reqs[r].inst, polled);
    MovedFromPolled(s, s', r, polled);
  }

  lemma ReservedStep(s: State, r: nat, fails: bool, applied: bool, polled: set<string>)
    requires AllFromPolled(polled, s) && r in s.reqs && Reserved(s, r, s.reqs[r], fails, applied).Some?
    ensures AllFromPolled(polled, Reserved(s, r, s.reqs[r], fails, applied).value)
  {
    hide AllFromPolled;
    PhaseStep(s, Reserved(s, r, s.reqs[r], fails, applied).value, r, polled);
  }

  lemma RecordsStep(s: State, r: nat, fails: bool, applied: bool, polled: set<string>)
    requires AllFromPolled(polled, s) && r in s.reqs && RecordsDurably(s, r, s.reqs[r], fails, applied).Some?
    ensures AllFromPolled(polled, RecordsDurably(s, r, s.reqs[r], fails, applied).value)
  {
    hide AllFromPolled, MayRecord;
    PhaseStep(s, RecordsDurably(s, r, s.reqs[r], fails, applied).value, r, polled);
  }

  lemma ReleasedStep(s: State, r: nat, fails: bool, applied: bool, polled: set<string>)
    requires AllFromPolled(polled, s) && r in s.reqs && Released(s, r, s.reqs[r], fails, applied).Some?
    ensures AllFromPolled(polled, Released(s, r, s.reqs[r], fails, applied).value)
  {
    hide AllFromPolled;
    PhaseStep(s, Released(s, r, s.reqs[r], fails, applied).value, r, polled);
  }

  lemma SentStep(s: State, r: nat, polled: set<string>)
    requires AllFromPolled(polled, s) && r in s.reqs && Sent(s, r, s.reqs[r]).Some?
    ensures AllFromPolled(polled, Sent(s, r, s.reqs[r]).value)
  {
    hide AllFromPolled;
    PhaseStep(s, Sent(s, r, s.reqs[r]).value, r, polled);
  }

  lemma AnsweredStep(s: State, r: nat, response: Response, polled: set<string>)
    requires AllFromPolled(polled, s) && r in s.reqs && Answered(s, r, s.reqs[r], response).Some?
    ensures AllFromPolled(polled, Answered(s, r, s.reqs[r], response).value)
  {
    hide AllFromPolled, MayName;
    PhaseStep(s, Answered(s, r, s.reqs[r], response).value, r, polled);
  }

  // ---- every step, every run ---------------------------------------------------------------------------

  lemma LoudStep(s: State, r: nat, action: Action, polled: set<string>)
    requires AllFromPolled(polled, s) && r in s.reqs && Acts(s, r, s.reqs[r], action).Some?
    requires Quiet(s, s.reqs[r], action) == None
    ensures AllFromPolled(polled, Acts(s, r, s.reqs[r], action).value)
  {
    hide AllFromPolled, LookingUp, Entering, Reserved, RecordsDurably, NotingOperation, Sent;
    hide Answered, CallReturns, CallSettles, Released, Quiet;
    match action {
      case Lookup(at) => LookingUpStep(s, r, at, polled);
      case EnterDo(call, at) => EnteringStep(s, r, call, at, polled);
      case Reserve(fails, applied) => ReservedStep(s, r, fails, applied, polled);
      case RecordOperation(fails, applied) => RecordsStep(s, r, fails, applied, polled);
      case NoteOperation => NotingStep(s, r, polled);
      case Send => SentStep(s, r, polled);
      case Respond(response) => AnsweredStep(s, r, response, polled);
      case Return => ReturnsStep(s, r, polled);
      case Settle(ttl, at, later) => SettlesStep(s, r, ttl, at, later, polled);
      case Release(fails, applied) => ReleasedStep(s, r, fails, applied, polled);
      case _ =>
    }
  }

  lemma IsQuiet(s: State, r: nat, action: Action)
    requires r in s.reqs && Acts(s, r, s.reqs[r], action).Some?
    ensures Quiet(s, s.reqs[r], action).Some? ==>
      Acts(s, r, s.reqs[r], action) == Some(Put(s, r, s.reqs[r].(phase := Quiet(s, s.reqs[r], action).value)))
    ensures Quiet(s, s.reqs[r], action) == None ==> !action.Poll?
  {
    hide Recovering, Waking, Abandoning, Confirming, Reading, Polled, Checking;
  }

  lemma ActsFromPolled(s: State, r: nat, action: Action, polled: set<string>)
    requires Inv(s) && AllFromPolled(polled, s) && r in s.reqs && Acts(s, r, s.reqs[r], action).Some?
    ensures AllFromPolled(polled + Delivered(s, Act(r, action)), Acts(s, r, s.reqs[r], action).value)
  {
    IsQuiet(s, r, action);
    hide Inv, AllFromPolled, Acts, Quiet, Delivered;
    if Quiet(s, s.reqs[r], action).Some? {
      QuietStep(s, r, action, polled);
    } else {
      LoudStep(s, r, action, polled);
      assert polled + Delivered(s, Act(r, action)) == polled;
    }
  }

  lemma ArrivedFromPolled(s: State, r: nat, inst: nat, slot: Slot, soft: bool, capped: bool, polled: set<string>)
    requires AllFromPolled(polled, s) && Arrived(s, r, inst, slot, soft, capped).Some?
    ensures AllFromPolled(polled, Arrived(s, r, inst, slot, soft, capped).value)
  {
    var s' := Arrived(s, r, inst, slot, soft, capped).value;
    assert PhaseFromPolled(polled, s'.reqs[r].phase);
    hide PhaseFromPolled;
    forall c ensures CallFromPolled(polled, s', c) { assert CallFromPolled(polled, s, c); }
    SameCaches(s, s', polled);
  }

  lemma SameCaches(s: State, s': State, polled: set<string>)
    requires AllFromPolled(polled, s) && s'.caches == s.caches
    ensures forall inst, key :: CacheFromPolled(polled, s', inst, key)
  {
    hide PhaseFromPolled;
    forall inst, key ensures CacheFromPolled(polled, s', inst, key) { assert CacheFromPolled(polled, s, inst, key); }
  }

  lemma CrashingFromPolled(s: State, inst: nat, polled: set<string>)
    requires AllFromPolled(polled, s)
    ensures AllFromPolled(polled, Crashing(s, inst))
  {
    var s' := Crashing(s, inst);
    forall r | r in s'.reqs ensures PhaseFromPolled(polled, s'.reqs[r].phase) {
      assert PhaseFromPolled(polled, s.reqs[r].phase);
    }
    hide PhaseFromPolled;
    forall c ensures CallFromPolled(polled, s', c) { assert CallFromPolled(polled, s, c); }
    forall i, key ensures CacheFromPolled(polled, s', i, key) { assert CacheFromPolled(polled, s, i, key); }
  }

  lemma SamePhases(s: State, s': State, polled: set<string>)
    requires AllFromPolled(polled, s) && s'.caches == s.caches && s'.calls == s.calls && s'.reqs.Keys == s.reqs.Keys
    requires forall r :: r in s.reqs ==> s'.reqs[r].phase == s.reqs[r].phase
    ensures AllFromPolled(polled, s')
  {
    hide PhaseFromPolled;
    forall c ensures CallFromPolled(polled, s', c) { assert CallFromPolled(polled, s, c); }
    SameCaches(s, s', polled);
  }

  lemma StepFromPolled(s: State, step: Step, polled: set<string>)
    requires Inv(s) && AllFromPolled(polled, s) && Next(s, step).Some?
    ensures AllFromPolled(polled + Delivered(s, step), Next(s, step).value)
  {
    if !step.Act? { assert polled + Delivered(s, step) == polled; }
    hide Inv, AllFromPolled, Arrived, Acts, Crashing, Delivered;
    match step {
      case Arrive(r, inst, slot, soft, capped) => ArrivedFromPolled(s, r, inst, slot, soft, capped, polled);
      case Act(r, action) => ActsFromPolled(s, r, action, polled);
      case Crash(inst) => CrashingFromPolled(s, inst, polled);
      case Lapse(slot) => SamePhases(s, Next(s, step).value, polled);
      case Reap(slot) => SamePhases(s, Next(s, step).value, polled);
    }
  }

  /** Some request successfully polled an operation of the image before state `k`. */
  ghost predicate WasDelivered(states: seq<State>, steps: seq<Step>, k: nat, image: string)
    requires |states| > |steps|
  {
    exists j :: 0 <= j < k && j < |steps| && BringsAnalysis(states[j], steps[j], image)
  }

  lemma {:induction false} DeliveriesUpTo(states: seq<State>, steps: seq<Step>, k: nat) returns (polled: set<string>)
    requires Run(states, steps) && k < |states|
    ensures AllFromPolled(polled, states[k])
    ensures forall image :: image in polled ==> WasDelivered(states, steps, k, image)
  {
    hide Next, BringsAnalysis;
    if k == 0 {
      polled := {};
    } else {
      hide AllFromPolled;
      var before := DeliveriesUpTo(states, steps, k - 1);
      Reachable(states, steps, k - 1);
      assert Next(states[k - 1], steps[k - 1]) == Some(states[k]);
      hide Inv;
      StepFromPolled(states[k - 1], steps[k - 1], before);
      polled := before + Delivered(states[k - 1], steps[k - 1]);
      forall image | image in polled ensures WasDelivered(states, steps, k, image) {
        if image in before {
          assert WasDelivered(states, steps, k - 1, image);
          var j :| 0 <= j < k - 1 && j < |steps| && BringsAnalysis(states[j], steps[j], image);
        }
      }
    }
  }

  /**
   In every run, whoever is answered with an analysis, through however many caches and waits: some request
   for that image had polled an operation of it successfully before.
   */
  lemma ResultsAreDelivered(states: seq<State>, steps: seq<Step>, k: nat, r: nat)
    requires Run(states, steps) && k < |states| && r in states[k].reqs
    requires states[k].reqs[r].phase.Finished? && states[k].reqs[r].phase.outcome.err == None
    ensures exists j :: 0 <= j < k && BringsAnalysis(states[j], steps[j], states[k].reqs[r].slot.image)
  {
    ResultsAreOwn(states, steps, k, r);
    var polled := DeliveriesUpTo(states, steps, k);
    var image := states[k].reqs[r].slot.image;
    assert PhaseFromPolled(polled, states[k].reqs[r].phase);
    hide Run, Inv, AllFromPolled;
    assert WasDelivered(states, steps, k, image);
  }

  // ---- what waiters are given ----------------------------------------------------------------------------

  /** The step ends call `c`, run by its request, with outcome `o`. */
  predicate HandsOver(s: State, step: Step, c: nat, o: Answer) {
    step.Act? && step.action == Return && step.r in s.reqs && Outgoing(s.reqs[step.r].phase) == Some(o) &&
    c in s.calls && s.calls[c].owner == step.r &&
    Some(c) == if s.reqs[step.r].phase.Returning? then s.reqs[step.r].outerCall else s.reqs[step.r].innerCall
  }

  predicate SameCall(s: State, s': State, c: nat) {
    c in s.calls && c in s'.calls && s'.calls[c] == s.calls[c]
  }

  lemma ReturnHandsOver(s: State, r: nat, c: nat)
    requires Inv(s) && r in s.reqs && CallReturns(s, r, s.reqs[r]).Some?
    requires c in CallReturns(s, r, s.reqs[r]).value.calls
    ensures var s' := CallReturns(s, r, s.reqs[r]).value;
      SameCall(s, s', c) || (s'.calls[c].outcome.Some? && HandsOver(s, Act(r, Return), c, s'.calls[c].outcome.value))
  {
    CallReturnsFacts(s, r, s.reqs[r]);
    assert ReqOk(s, r);
    hide Inv, PhaseOk, WaitOk, LiveOk, CallReturns;
  }

  lemma OthersKeepCalls(s: State, step: Step, c: nat)
    requires Next(s, step).Some? && c in Next(s, step).value.calls && !(step.Act? && step.action == Return)
    ensures SameCall(s, Next(s, step).value, c) || Next(s, step).value.calls[c].outcome == None
  {
    hide Quiet, CacheOf, Found, Dropped, Started, Settled, LookedUp, Recorded, Proceeding, AfterReserve, AfterRecord;
    hide AfterLookup, AfterResponse, EnterKey, Leaving, CallReturns, Died, MayRecord, Releases;
  }

  /** In every run, a call that has ended was ended by the request that ran it, with that outcome. */
  lemma {:induction false} OutcomesAreHandedOver(states: seq<State>, steps: seq<Step>, k: nat, c: nat)
    requires Run(states, steps) && k < |states| && c in states[k].calls && states[k].calls[c].outcome.Some?
    ensures exists j :: 0 <= j < k && HandsOver(states[j], steps[j], c, states[k].calls[c].outcome.value)
  {
    hide Next, HandsOver;
    if k > 0 {
      var s, step := states[k - 1], steps[k - 1];
      Reachable(states, steps, k - 1);
      assert Next(s, step) == Some(states[k]);
      hide Inv;
      if SameCall(s, states[k], c) {
        OutcomesAreHandedOver(states, steps, k - 1, c);
      } else if step.Act? && step.action == Return {
        ReturnsAct(s, step.r);
        ReturnHandsOver(s, step.r, c);
      } else {
        OthersKeepCalls(s, step, c);
      }
    }
  }

  lemma ReturnsAct(s: State, r: nat)
    requires Next(s, Act(r, Return)).Some?
    ensures r in s.reqs && Next(s, Act(r, Return)) == CallReturns(s, r, s.reqs[r])
  {
    hide CallReturns;
  }

  /** Whoever wakes takes exactly the outcome that the request running the awaited call handed over. */
  lemma WaitersTakeTheOutcome(states: seq<State>, steps: seq<Step>, k: nat, r: nat) returns (j: nat, o: Answer)
    requires Run(states, steps) && k < |steps| && steps[k] == Act(r, Wake)
    ensures r in states[k].reqs && WaitsFor(states[k].reqs[r].phase).Some? && r in states[k + 1].reqs
    ensures j < k && HandsOver(states[j], steps[j], WaitsFor(states[k].reqs[r].phase).value, o)
    ensures states[k + 1].reqs[r].phase ==
      if states[k].reqs[r].phase.OuterWait? then Finished(o) else Owning(AfterInner(false, o))
  {
    assert Next(states[k], steps[k]) == Some(states[k + 1]);
    var c := WaitsFor(states[k].reqs[r].phase).value;
    o := states[k].calls[c].outcome.value;
    hide Run;
    OutcomesAreHandedOver(states, steps, k, c);
    hide Next, HandsOver;
    j :| 0 <= j < k && HandsOver(states[j], steps[j], c, o);
  }

  /** A waiter whose client or deadline gives up goes on with an error at once, and changes nothing but itself. */
  lemma WaitersMayLeave(s: State, r: nat)
    requires r in s.reqs && WaitsFor(s.reqs[r].phase).Some?
    ensures var s' := Next(s, Act(r, Abandon));
      s'.Some? && r in s'.value.reqs && s'.value == s.(reqs := s.reqs[r := s'.value.reqs[r]]) &&
      var p := s'.value.reqs[r].phase;
      if s.reqs[r].phase.OuterWait? then p.Finished? && p.outcome.err.Some?
      else p.Owning? && p.own.AfterInner? && !p.own.owner && p.own.outcome.err.Some?
  {
  }
}
