/**
 What every interleaving of the scan endpoint keeps: the spend fence, who may release, what a capped
 request can do, and whose result a request returns (cmd/ocr/main.go:457-574).
 */
module ScanSafety {
  import opened Names
  import opened Wrappers
  import opened Coalescer
  import opened ScanProtocol

  // ---- what one request knows ---------------------------------------------------------------

  predicate KnowsOp(ops: map<string, string>, image: string, op: string) { op in ops && ops[op] == image }

  /** A success carries the analysis of the key's own image; under an identity's key its slot was reserved. */
  predicate OutcomeOk(ever: set<Slot>, key: Key, o: Answer) {
    o.err == None ==> o.result == Some(ImageOf(key)) && (key.Outer? ==> key.slot in ever)
  }

  predicate Clean(q: Request) { !q.minted && q.sub == Unsent }

  predicate Owns(q: Request) { q.minted && !q.released && !q.lapsed }

  /** May have been billed. */
  predicate Billable(q: Request) { q.sub.InDoubt? || q.sub.Accepted? }

  predicate RejectedOk(q: Request, o: Answer) { o.err == Some(NOT_SUBMITTED) ==> !Billable(q) }

  predicate LookingOk(ever: set<Slot>, ops: map<string, string>, slot: Slot, p: Capped) {
    match p
    case CapHas(v) => v == slot.image
    case CapEnter(op) => slot in ever && KnowsOp(ops, slot.image, op)
    case _ => true
  }

  predicate AdmittingOk(ever: set<Slot>, ops: map<string, string>, slot: Slot, p: Admit) {
    match p
    case Taken => slot in ever
    case Replaying(v) => slot in ever && v == slot.image
    case ReplayRecording(v, op) => slot in ever && v == slot.image && KnowsOp(ops, slot.image, op)
    case TakenRead => slot in ever
    case Resuming(op) => slot in ever && KnowsOp(ops, slot.image, op)
    case _ => true
  }

  predicate OwningOk(ever: set<Slot>, ops: map<string, string>, q: Request, p: Own) {
    match p
    case EnterInner => q.sub == Unsent
    case InnerWait(_) => q.sub == Unsent
    case AfterInner(owner, o) => OutcomeOk(ever, InnerKey(q), o) && RejectedOk(q, o) && (!owner ==> q.sub == Unsent)
    case JoinRecording(o, op) => OutcomeOk(ever, InnerKey(q), o) && q.sub == Unsent && KnowsOp(ops, q.slot.image, op)
    case Releasing(o) => OutcomeOk(ever, InnerKey(q), o) && RejectedOk(q, o)
  }

  predicate ExecutingOk(ever: set<Slot>, ops: map<string, string>, q: Request, p: Exec) {
    match p
    case Sending => q.sub == Unsent
    case Submitting => true
    case Recording(op) => KnowsOp(ops, q.slot.image, op)
    case Noting(op) => KnowsOp(ops, q.slot.image, op)
    case Polling(op) => KnowsOp(ops, q.slot.image, op)
    case InnerReturning(o) => OutcomeOk(ever, InnerKey(q), o) && RejectedOk(q, o)
    case InnerSettling(o) => OutcomeOk(ever, InnerKey(q), o) && RejectedOk(q, o)
  }

  predicate PhaseOk(ever: set<Slot>, ops: map<string, string>, q: Request) {
    match q.phase
    case Looking(p) => Clean(q) && LookingOk(ever, ops, q.slot, p)
    case OuterWait(_) => Clean(q)
    case Admitting(p) => Clean(q) && AdmittingOk(ever, ops, q.slot, p)
    case Owning(p) => Owns(q) && OwningOk(ever, ops, q, p)
    case Executing(p) => Owns(q) && ExecutingOk(ever, ops, q, p)
    case Returning(o) => OutcomeOk(ever, OuterKey(q), o)
    case Settling(o) => OutcomeOk(ever, OuterKey(q), o)
    case Finished(o) => OutcomeOk(ever, OuterKey(q), o)
    case Crashed => true
  }

  /** Where a capped request can be: it never reserves, owns or executes. */
  predicate CappedPhase(p: Phase) {
    match p
    case Admitting(a) => a.Resuming?
    case Owning(_) => false
    case Executing(_) => false
    case _ => true
  }

  predicate RunsOuter(p: Phase) {
    match p
    case Admitting(a) => a != Start
    case Owning(_) => true
    case Executing(_) => true
    case Returning(_) => true
    case Settling(_) => true
    case _ => false
  }

  /** What holds of a request by itself. */
  predicate Local(ever: set<Slot>, ops: map<string, string>, q: Request) {
    PhaseOk(ever, ops, q) &&
    (Billable(q) ==> q.minted && !q.released) && (q.minted ==> q.slot in ever) && (q.released ==> q.minted) &&
    (Working(q) ==> !q.lapsed) &&
    (q.capped ==> CappedPhase(q.phase) && Clean(q)) &&
    (q.capped && q.soft ==> q.phase.Finished? && q.phase.outcome.err.Some?) &&
    (q.outerCall.Some? <==> RunsOuter(q.phase)) && (q.innerCall.Some? <==> q.phase.Executing?)
  }

  /** What a request waits for is a call of the key it asked for. */
  predicate WaitOk(calls: map<nat, CallInfo>, q: Request) {
    match q.phase
    case OuterWait(c) => c in calls && calls[c].key == OuterKey(q)
    case Owning(InnerWait(c)) => c in calls && calls[c].key == InnerKey(q)
    case _ => true
  }

  type ScanCache = Cache<Key, nat, string>

  predicate OwnsFlight(cache: ScanCache, calls: map<nat, CallInfo>, key: Key, call: nat, r: nat) {
    key in cache.inFlight && cache.inFlight[key].call == call && call in calls && calls[call].key == key &&
    calls[call].owner == r
  }

  predicate OwnOk(cache: ScanCache, calls: map<nat, CallInfo>, r: nat, q: Request) {
    (q.outerCall.Some? ==> OwnsFlight(cache, calls, OuterKey(q), q.outerCall.value, r)) &&
    (q.innerCall.Some? ==> OwnsFlight(cache, calls, InnerKey(q), q.innerCall.value, r))
  }

  /** A reservation that was minted and neither released nor expired is in the store, in its owner's name. */
  predicate LiveOk(store: map<Slot, Reservation>, r: nat, q: Request) {
    Owns(q) ==> q.slot in store && store[q.slot].holder == Some(r)
  }

  predicate ReqOk(s: State, r: nat)
    requires r in s.reqs
  {
    Local(s.ever, s.ops, s.reqs[r]) && WaitOk(s.calls, s.reqs[r]) &&
    OwnOk(CacheOf(s, s.reqs[r].inst), s.calls, r, s.reqs[r]) && LiveOk(s.store, r, s.reqs[r])
  }

  // ---- what the shared parts keep -----------------------------------------------------------

  predicate SlotOk(s: State, slot: Slot) {
    slot in s.store ==>
      slot in s.ever && (s.store[slot].op != "" ==> KnowsOp(s.ops, slot.image, s.store[slot].op)) &&
      (s.store[slot].expired && s.store[slot].holder.Some? ==>
         s.store[slot].holder.value in s.reqs && s.reqs[s.store[slot].holder.value].lapsed)
  }

  predicate CallOk(s: State, c: nat) {
    c in s.calls && s.calls[c].outcome.Some? ==> OutcomeOk(s.ever, s.calls[c].key, s.calls[c].outcome.value)
  }

  predicate KeyOk(ever: set<Slot>, ops: map<string, string>, calls: map<nat, CallInfo>, cache: ScanCache, key: Key) {
    (key in cache.done ==>
       (cache.done[key].result.Some? ==> OutcomeOk(ever, key, Outcome(cache.done[key].result, None))) &&
       (cache.done[key].operation != "" ==> KnowsOp(ops, ImageOf(key), cache.done[key].operation))) &&
    (key in cache.inFlight ==>
       cache.inFlight[key].call in calls && calls[cache.inFlight[key].call].key == key &&
       (cache.inFlight[key].operation != "" ==> KnowsOp(ops, ImageOf(key), cache.inFlight[key].operation)))
  }

  predicate CacheOk(s: State, inst: nat, key: Key) { KeyOk(s.ever, s.ops, s.calls, CacheOf(s, inst), key) }

  ghost predicate Inv(s: State) {
    (forall r :: r in s.reqs ==> ReqOk(s, r)) &&
    (forall slot :: SlotOk(s, slot)) &&
    (forall c :: CallOk(s, c)) &&
    (forall inst, key :: CacheOk(s, inst, key))
  }

  /** Knowledge only grows. */
  predicate Extends(s: State, s': State) {
    s.ever <= s'.ever &&
    (forall op :: op in s.ops ==> op in s'.ops && s'.ops[op] == s.ops[op]) &&
    (forall c :: c in s.calls ==>
       c in s'.calls && s'.calls[c].key == s.calls[c].key && s'.calls[c].owner == s.calls[c].owner)
  }

  lemma LocalGrows(s: State, s': State, q: Request)
    requires Extends(s, s') && Local(s.ever, s.ops, q) && WaitOk(s.calls, q)
    ensures Local(s'.ever, s'.ops, q) && WaitOk(s'.calls, q)
  {
  }

  // ---- quiet steps -----------------------------------------------------------------------------

  /** The facts a request may use about itself and its instance. */
  lemma Facts(s: State, r: nat)
    requires Inv(s) && r in s.reqs
    ensures ReqOk(s, r) && SlotOk(s, s.reqs[r].slot)
    ensures CacheOk(s, s.reqs[r].inst, OuterKey(s.reqs[r])) && CacheOk(s, s.reqs[r].inst, InnerKey(s.reqs[r]))
  {
    hide ReqOk, SlotOk, CacheOk, CallOk;
  }

  predicate Ready(s: State, r: nat, q: Request) {
    Local(s.ever, s.ops, q) && WaitOk(s.calls, q)
  }

  lemma RecoverLocal(s: State, r: nat, at: int)
    requires Inv(s) && r in s.reqs && s.reqs[r].phase == Looking(CapStart)
    ensures Ready(s, r, s.reqs[r].(phase := Recovering(s, s.reqs[r], at)))
  {
    Facts(s, r);
    hide Inv, SlotOk, OwnOk, LiveOk;
  }

  lemma WakeLocal(s: State, r: nat)
    requires Inv(s) && r in s.reqs && Waking(s, s.reqs[r]).Some?
    ensures Ready(s, r, s.reqs[r].(phase := Waking(s, s.reqs[r]).value))
  {
    Facts(s, r);
    var p := s.reqs[r].phase;
    var c := if p.OuterWait? then p.call else p.own.call;
    assert CallOk(s, c);
    hide Inv, SlotOk, CacheOk, OwnOk, LiveOk;
  }

  lemma AbandonLocal(s: State, r: nat)
    requires Inv(s) && r in s.reqs && Abandoning(s.reqs[r]).Some?
    ensures Ready(s, r, s.reqs[r].(phase := Abandoning(s.reqs[r]).value))
  {
    Facts(s, r);
    hide Inv, SlotOk, CacheOk, OwnOk, LiveOk;
  }

  lemma HasLocal(s: State, r: nat, fails: bool)
    requires Inv(s) && r in s.reqs && Confirming(s, s.reqs[r], fails).Some?
    ensures Ready(s, r, s.reqs[r].(phase := Confirming(s, s.reqs[r], fails).value))
  {
    Facts(s, r);
    hide Inv, CacheOk, OwnOk, LiveOk;
  }

  lemma ReadLocal(s: State, r: nat, fails: bool)
    requires Inv(s) && r in s.reqs && Reading(s, s.reqs[r], fails).Some?
    ensures Ready(s, r, s.reqs[r].(phase := Reading(s, s.reqs[r], fails).value))
  {
    Facts(s, r);
    hide Inv, CacheOk, OwnOk, LiveOk;
  }

  lemma PollLocal(s: State, r: nat, succeeds: bool)
    requires Inv(s) && r in s.reqs && Polled(s, s.reqs[r], succeeds).Some?
    ensures Ready(s, r, s.reqs[r].(phase := Polled(s, s.reqs[r], succeeds).value))
  {
    Facts(s, r);
    hide Inv, CacheOk, SlotOk, OwnOk, LiveOk;
  }

  lemma CheckLocal(s: State, r: nat, at: int)
    requires Inv(s) && r in s.reqs && Checking(s, s.reqs[r], at).Some?
    ensures Ready(s, r, s.reqs[r].(phase := Checking(s, s.reqs[r], at).value))
  {
    Facts(s, r);
    hide Inv, SlotOk, OwnOk, LiveOk;
  }

  lemma QuietLocal(s: State, r: nat, action: Action)
    requires Inv(s) && r in s.reqs && Quiet(s, s.reqs[r], action).Some?
    ensures Ready(s, r, s.reqs[r].(phase := Quiet(s, s.reqs[r], action).value))
  {
    hide Inv, Ready, Recovering, Waking, Abandoning, Confirming, Reading, Polled, Checking;
    match action {
      case Recover(at) => RecoverLocal(s, r, at);
      case Wake => WakeLocal(s, r);
      case Abandon => AbandonLocal(s, r);
      case HasReservation(fails) => HasLocal(s, r, fails);
      case ReadOperation(fails) => ReadLocal(s, r, fails);
      case Poll(succeeds) => PollLocal(s, r, succeeds);
      case CheckOperation(at) => CheckLocal(s, r, at);
      case _ =>
    }
  }

  // ---- one step of one request -----------------------------------------------------------------

  /** Only request `r` moved, it is in order, and the shared parts are. */
  lemma OneMoved(s: State, s': State, r: nat)
    requires Inv(s) && r in s.reqs && r in s'.reqs && s'.reqs == s.reqs[r := s'.reqs[r]] && Extends(s, s')
    requires ReqOk(s', r)
    requires forall o :: o in s.reqs && o != r ==>
      OwnOk(CacheOf(s', s.reqs[o].inst), s'.calls, o, s.reqs[o]) && LiveOk(s'.store, o, s.reqs[o])
    requires (forall slot :: SlotOk(s', slot)) && (forall c :: CallOk(s', c))
    requires forall inst, key :: CacheOk(s', inst, key)
    ensures Inv(s')
  {
    hide Local, WaitOk, OwnOk, LiveOk, SlotOk, CallOk, CacheOk, Extends;
    forall o | o in s'.reqs ensures ReqOk(s', o) {
      if o != r {
        assert ReqOk(s, o);
        LocalGrows(s, s', s.reqs[o]);
      }
    }
  }

  /** Nothing but request `r` and what it sent changed. */
  lemma QuietKeeps(s: State, s': State, r: nat)
    requires Inv(s) && r in s.reqs && r in s'.reqs && s' == s.(reqs := s.reqs[r := s'.reqs[r]], ops := s'.ops)
    requires Ready(s', r, s'.reqs[r]) && Extends(s, s')
    requires var (q, q') := (s.reqs[r], s'.reqs[r]);
      q'.inst == q.inst && q'.slot == q.slot && q'.lapsed == q.lapsed && q'.minted == q.minted &&
      q'.released == q.released &&
      q'.outerCall == q.outerCall && q'.innerCall == q.innerCall
    ensures Inv(s')
  {
    hide Local, WaitOk;
    Facts(s, r);
    forall slot ensures SlotOk(s', slot) { assert SlotOk(s, slot); }
    forall c ensures CallOk(s', c) { assert CallOk(s, c); }
    forall inst, key ensures CacheOk(s', inst, key) { assert CacheOk(s, inst, key); }
    forall o | o in s.reqs && o != r
      ensures OwnOk(CacheOf(s', s.reqs[o].inst), s'.calls, o, s.reqs[o]) && LiveOk(s'.store, o, s.reqs[o])
    {
      assert ReqOk(s, o);
    }
    OneMoved(s, s', r);
  }

  lemma SentKeeps(s: State, r: nat)
    requires Inv(s) && r in s.reqs && Sent(s, r, s.reqs[r]).Some?
    ensures Inv(Sent(s, r, s.reqs[r]).value)
  {
    Facts(s, r);
    hide Inv, SlotOk, CacheOk, OwnOk, LiveOk;
    QuietKeeps(s, Sent(s, r, s.reqs[r]).value, r);
  }

  lemma AfterResponseLocal(ever: set<Slot>, ops: map<string, string>, calls: map<nat, CallInfo>, q: Request,
                           response: Response)
    requires Local(ever, ops, q) && AfterResponse(q, response, ops).Some?
    ensures var (phase, sub) := AfterResponse(q, response, ops).value;
      var ops' := if response.Acceptance? then ops[response.op := q.slot.image] else ops;
      Local(ever, ops', q.(phase := phase, sub := sub)) && WaitOk(calls, q.(phase := phase, sub := sub)) &&
      (response.Acceptance? ==> MayName(ops, response.op, q.slot.image))
  {
    assert NOT_SUBMITTED[0] != FAILED[0];
  }

  lemma AnsweredKeeps(s: State, r: nat, response: Response)
    requires Inv(s) && r in s.reqs && Answered(s, r, s.reqs[r], response).Some?
    ensures Inv(Answered(s, r, s.reqs[r], response).value)
  {
    hide AfterResponse, Local, WaitOk, SlotOk, CacheOk, OwnOk, LiveOk;
    Facts(s, r);
    AfterResponseLocal(s.ever, s.ops, s.calls, s.reqs[r], response);
    hide Inv;
    QuietKeeps(s, Answered(s, r, s.reqs[r], response).value, r);
  }

  /** Only request `r` and its instance's cache changed, and nobody else's flight. */
  lemma CacheStepKeeps(s: State, s': State, r: nat)
    requires Inv(s) && r in s.reqs && r in s'.reqs
    requires s' == s.(reqs := s.reqs[r := s'.reqs[r]],
                      caches := s.caches[s.reqs[r].inst := CacheOf(s', s.reqs[r].inst)], calls := s'.calls)
    requires Ready(s', r, s'.reqs[r]) && Extends(s, s') && OwnOk(CacheOf(s', s'.reqs[r].inst), s'.calls, r, s'.reqs[r])
    requires forall c :: CallOk(s', c)
    requires var (q, q') := (s.reqs[r], s'.reqs[r]);
      q'.slot == q.slot && q'.lapsed == q.lapsed && q'.minted == q.minted && q'.released == q.released
    requires forall key :: CacheOk(s', s.reqs[r].inst, key)
    requires forall o :: o in s.reqs && o != r && s.reqs[o].inst == s.reqs[r].inst ==>
      OwnOk(CacheOf(s', s.reqs[o].inst), s'.calls, o, s.reqs[o])
    ensures Inv(s')
  {
    hide Local, WaitOk;
    Facts(s, r);
    forall slot ensures SlotOk(s', slot) { assert SlotOk(s, slot); }
    forall inst, key ensures CacheOk(s', inst, key) { if inst != s.reqs[r].inst { assert CacheOk(s, inst, key); } }
    forall o | o in s.reqs && o != r
      ensures OwnOk(CacheOf(s', s.reqs[o].inst), s'.calls, o, s.reqs[o]) && LiveOk(s'.store, o, s.reqs[o])
    {
      assert ReqOk(s, o);
    }
    OneMoved(s, s', r);
  }

  // ---- the cache under each section ---------------------------------------------------------------

  lemma LookedUpOk(ever: set<Slot>, ops: map<string, string>, calls: map<nat, CallInfo>, cache: ScanCache, at: int,
                   k: Key, key: Key)
    requires KeyOk(ever, ops, calls, cache, key)
    ensures KeyOk(ever, ops, calls, LookedUp(cache, k, at), key)
  {
  }

  lemma RecordedOk(ever: set<Slot>, ops: map<string, string>, calls: map<nat, CallInfo>, cache: ScanCache, k: Key,
                   op: string, key: Key)
    requires KeyOk(ever, ops, calls, cache, key) && KnowsOp(ops, ImageOf(k), op)
    ensures KeyOk(ever, ops, calls, Recorded(cache, k, op), key)
  {
  }

  lemma DroppedOk(ever: set<Slot>, ops: map<string, string>, calls: map<nat, CallInfo>, cache: ScanCache, at: int,
                  k: Key, key: Key)
    requires KeyOk(ever, ops, calls, cache, key)
    ensures KeyOk(ever, ops, calls, Dropped(cache, k, at), key)
  {
  }

  lemma StartedOk(ever: set<Slot>, ops: map<string, string>, calls: map<nat, CallInfo>, cache: ScanCache, k: Key,
                  call: nat, r: nat, key: Key)
    requires KeyOk(ever, ops, calls, cache, key) && call !in calls
    ensures KeyOk(ever, ops, calls[call := CallInfo(k, r, None)], Started(cache, k, call), key)
  {
  }

  lemma SettledOk(ever: set<Slot>, ops: map<string, string>, calls: map<nat, CallInfo>, cache: ScanCache, k: Key,
                  o: Answer, ttl: int, at: int, later: int, key: Key)
    requires KeyOk(ever, ops, calls, cache, key) && KeyOk(ever, ops, calls, cache, k) && k in cache.inFlight
    requires OutcomeOk(ever, k, o)
    ensures KeyOk(ever, ops, calls, Settled(cache, k, o, ttl, at, later), key)
  {
  }

  /** Flights that are still there belong to the same callers. */
  predicate SameFlights(cache: ScanCache, cache': ScanCache) {
    forall k :: k in cache.inFlight ==> k in cache'.inFlight && cache'.inFlight[k].call == cache.inFlight[k].call
  }

  lemma StillOwns(cache: ScanCache, cache': ScanCache, calls: map<nat, CallInfo>, calls': map<nat, CallInfo>, r: nat,
                  q: Request)
    requires OwnOk(cache, calls, r, q) && SameFlights(cache, cache')
    requires forall c :: c in calls ==>
      c in calls' && calls'[c].key == calls[c].key && calls'[c].owner == calls[c].owner
    ensures OwnOk(cache', calls', r, q)
  {
  }

  /** Settling takes away one flight, which nobody else owns. */
  lemma OthersStillOwn(cache: ScanCache, k: Key, calls: map<nat, CallInfo>, o: Answer, ttl: int, at: int, later: int,
                       call: nat, r: nat, other: nat, q: Request)
    requires OwnsFlight(cache, calls, k, call, r) && OwnOk(cache, calls, other, q) && other != r
    ensures OwnOk(Settled(cache, k, o, ttl, at, later), calls, other, q)
  {
  }

  // ---- steps at the cache ---------------------------------------------------------------------------

  lemma AllStillOwn(s: State, s': State, inst: nat)
    requires Inv(s) && SameFlights(CacheOf(s, inst), CacheOf(s', inst)) && Extends(s, s')
    ensures forall o :: o in s.reqs && s.reqs[o].inst == inst ==> OwnOk(CacheOf(s', inst), s'.calls, o, s.reqs[o])
  {
    hide Local, WaitOk, OwnOk, LiveOk, SlotOk, CallOk, CacheOk, SameFlights, CacheOf;
    forall o | o in s.reqs && s.reqs[o].inst == inst ensures OwnOk(CacheOf(s', inst), s'.calls, o, s.reqs[o]) {
      assert ReqOk(s, o);
      StillOwns(CacheOf(s, inst), CacheOf(s', inst), s.calls, s'.calls, o, s.reqs[o]);
    }
  }

  /** The same calls under a new phase. */
  lemma SameCalls(cache: ScanCache, calls: map<nat, CallInfo>, r: nat, q: Request, q': Request)
    requires OwnOk(cache, calls, r, q) && q'.slot == q.slot && q'.outerCall == q.outerCall
    requires q'.innerCall == q.innerCall
    ensures OwnOk(cache, calls, r, q')
  {
  }

  lemma AfterLookupLocal(ever: set<Slot>, ops: map<string, string>, calls: map<nat, CallInfo>, q: Request,
                         cached: Option<string>)
    requires Local(ever, ops, q) && AfterLookup(q, cached).Some? && (cached.Some? ==> cached.value == q.slot.image)
    ensures var q' := q.(phase := AfterLookup(q, cached).value); Local(ever, ops, q') && WaitOk(calls, q')
  {
  }

  lemma LookingUpLocal(s: State, r: nat, at: int)
    requires Inv(s) && r in s.reqs && LookingUp(s, r, s.reqs[r], at).Some?
    ensures var s' := LookingUp(s, r, s.reqs[r], at).value; Ready(s', r, s'.reqs[r])
  {
    hide LookedUp, Local, WaitOk, AfterLookup;
    Facts(s, r);
    var q, cache := s.reqs[r], CacheOf(s, s.reqs[r].inst);
    var key := InnerKey(q);
    var cached := if key in cache.done && Servable(cache.done[key], at) then cache.done[key].result else None;
    assert cached.Some? ==> cached.value == q.slot.image;
    hide Inv, SlotOk, LiveOk, OwnOk, KeyOk, CacheOk, CacheOf;
    AfterLookupLocal(s.ever, s.ops, s.calls, q, cached);
  }

  lemma LookingUpKeeps(s: State, r: nat, at: int)
    requires Inv(s) && r in s.reqs && LookingUp(s, r, s.reqs[r], at).Some?
    ensures Inv(LookingUp(s, r, s.reqs[r], at).value)
  {
    var q, s' := s.reqs[r], LookingUp(s, r, s.reqs[r], at).value;
    LookingUpLocal(s, r, at);
    hide Local, WaitOk, OwnOk, KeyOk, LiveOk, SlotOk;
    assert SameFlights(CacheOf(s, q.inst), CacheOf(s', q.inst));
    hide SameFlights;
    forall c ensures CallOk(s', c) { assert CallOk(s, c); }
    forall key
      ensures CacheOk(s', q.inst, key)
    {
      assert CacheOk(s, q.inst, key);
      LookedUpOk(s.ever, s.ops, s.calls, CacheOf(s, q.inst), at, InnerKey(q), key);
    }
    hide LookedUp, CacheOk, CallOk;
    AllStillOwn(s, s', q.inst);
    SameCalls(CacheOf(s', q.inst), s'.calls, r, q, s'.reqs[r]);
    CacheStepKeeps(s, s', r);
  }

  lemma NotingLocal(s: State, r: nat)
    requires Inv(s) && r in s.reqs && NotingOperation(s, r, s.reqs[r]).Some?
    ensures var s' := NotingOperation(s, r, s.reqs[r]).value; Ready(s', r, s'.reqs[r])
    ensures KnowsOp(s.ops, s.reqs[r].slot.image, s.reqs[r].phase.exec.op)
  {
    Facts(s, r);
    hide Inv, SlotOk, LiveOk, OwnOk, Recorded, KeyOk, CacheOk, CacheOf;
  }

  lemma NotingKeeps(s: State, r: nat)
    requires Inv(s) && r in s.reqs && NotingOperation(s, r, s.reqs[r]).Some?
    ensures Inv(NotingOperation(s, r, s.reqs[r]).value)
  {
    var q, s' := s.reqs[r], NotingOperation(s, r, s.reqs[r]).value;
    NotingLocal(s, r);
    hide Local, WaitOk, OwnOk, KeyOk, LiveOk, SlotOk, KnowsOp;
    assert SameFlights(CacheOf(s, q.inst), CacheOf(s', q.inst));
    hide SameFlights;
    forall c ensures CallOk(s', c) { assert CallOk(s, c); }
    forall key
      ensures CacheOk(s', q.inst, key)
    {
      assert CacheOk(s, q.inst, key);
      RecordedOk(s.ever, s.ops, s.calls, CacheOf(s, q.inst), InnerKey(q), q.phase.exec.op, key);
    }
    hide Recorded, CacheOk, CallOk;
    AllStillOwn(s, s', q.inst);
    SameCalls(CacheOf(s', q.inst), s'.calls, r, q, s'.reqs[r]);
    CacheStepKeeps(s, s', r);
  }

  // ---- entering Do --------------------------------------------------------------------------------------

  /** What Found finds is sound. */
  lemma FoundOk(ever: set<Slot>, ops: map<string, string>, calls: map<nat, CallInfo>, cache: ScanCache, key: Key,
                at: int)
    requires KeyOk(ever, ops, calls, cache, key)
    ensures var found := Found(cache, key, at);
      (found.Replay? ==> OutcomeOk(ever, key, Success(found.result)) && found.result == ImageOf(key)) &&
      (found.Join? ==> found.call in calls && calls[found.call].key == key) &&
      (found.Nothing? ==> key !in cache.inFlight)
  {
  }

  predicate FoundFits(ever: set<Slot>, calls: map<nat, CallInfo>, key: Key, found: Entered<nat, string>) {
    match found
    case Replay(v) => OutcomeOk(ever, key, Success(v))
    case Join(c) => c in calls && calls[c].key == key
    case Nothing => true
  }

  lemma EnteredLocal(ever: set<Slot>, ops: map<string, string>, calls: map<nat, CallInfo>, q: Request,
                     found: Entered<nat, string>, call: nat)
    requires Local(ever, ops, q) && EnterKey(q).Some? && FoundFits(ever, calls, EnterKey(q).value, found)
    ensures Local(ever, ops, Proceeding(q, found, call)) && WaitOk(calls, Proceeding(q, found, call))
  {
  }

  /** Do touches the phase and, when it starts a call, who runs it. */
  lemma ProceedingFrame(q: Request, found: Entered<nat, string>, call: nat)
    requires EnterKey(q).Some?
    ensures var q' := Proceeding(q, found, call);
      q'.inst == q.inst && q'.slot == q.slot && q'.lapsed == q.lapsed && q'.minted == q.minted &&
      q'.released == q.released
    ensures found != Nothing ==>
      Proceeding(q, found, call).outerCall == q.outerCall && Proceeding(q, found, call).innerCall == q.innerCall
    ensures found == Nothing && EnterKey(q) == Some(OuterKey(q)) ==>
      Proceeding(q, found, call).outerCall == Some(call) && Proceeding(q, found, call).innerCall == q.innerCall
    ensures EnterKey(q) != Some(OuterKey(q)) ==> EnterKey(q) == Some(InnerKey(q))
    ensures found == Nothing && EnterKey(q) != Some(OuterKey(q)) ==>
      Proceeding(q, found, call).innerCall == Some(call) && Proceeding(q, found, call).outerCall == q.outerCall
  {
  }

  lemma EnteredOwns(cache: ScanCache, calls: map<nat, CallInfo>, r: nat, q: Request, found: Entered<nat, string>,
                    call: nat, key: Key)
    requires OwnOk(cache, calls, r, q) && EnterKey(q) == Some(key)
    requires found == Nothing ==> OwnsFlight(cache, calls, key, call, r)
    ensures OwnOk(cache, calls, r, Proceeding(q, found, call))
  {
    ProceedingFrame(q, found, call);
    hide Proceeding, EnterKey, OwnsFlight;
  }

  lemma JoiningKeeps(s: State, r: nat, call: nat, at: int)
    requires Inv(s) && r in s.reqs && Entering(s, r, s.reqs[r], call, at).Some?
    requires Found(CacheOf(s, s.reqs[r].inst), EnterKey(s.reqs[r]).value, at) != Nothing
    ensures Inv(Entering(s, r, s.reqs[r], call, at).value)
  {
    var q, s' := s.reqs[r], Entering(s, r, s.reqs[r], call, at).value;
    var key, cache := EnterKey(q).value, CacheOf(s, q.inst);
    Facts(s, r);
    assert CacheOk(s, q.inst, key);
    hide Local, WaitOk, OwnOk, KeyOk, LiveOk, SlotOk, EnterKey, Found;
    FoundOk(s.ever, s.ops, s.calls, cache, key, at);
    ProceedingFrame(q, Found(cache, key, at), call);
    EnteredLocal(s.ever, s.ops, s.calls, q, Found(cache, key, at), call);
    EnteredOwns(cache, s.calls, r, q, Found(cache, key, at), call, key);
    assert SameFlights(cache, CacheOf(s', q.inst));
    hide Proceeding;
    StillOwns(cache, CacheOf(s', q.inst), s.calls, s'.calls, r, s'.reqs[r]);
    forall c ensures CallOk(s', c) { assert CallOk(s, c); }
    forall k
      ensures CacheOk(s', q.inst, k)
    {
      assert CacheOk(s, q.inst, k);
      DroppedOk(s.ever, s.ops, s.calls, cache, at, key, k);
    }
    hide Dropped, CacheOk, CallOk, SameFlights;
    AllStillOwn(s, s', q.inst);
    CacheStepKeeps(s, s', r);
  }

  lemma StartingCache(s: State, r: nat, call: nat, at: int)
    requires Inv(s) && r in s.reqs && Entering(s, r, s.reqs[r], call, at).Some?
    requires Found(CacheOf(s, s.reqs[r].inst), EnterKey(s.reqs[r]).value, at) == Nothing
    ensures var s' := Entering(s, r, s.reqs[r], call, at).value;
      (forall k :: CacheOk(s', s.reqs[r].inst, k)) && (forall c :: CallOk(s', c)) && Extends(s, s') &&
      SameFlights(CacheOf(s, s.reqs[r].inst), CacheOf(s', s.reqs[r].inst)) &&
      OwnsFlight(CacheOf(s', s.reqs[r].inst), s'.calls, EnterKey(s.reqs[r]).value, call, r)
  {
    hide ReqOk, KeyOk, SlotOk, EnterKey, Proceeding;
    var q, s' := s.reqs[r], Entering(s, r, s.reqs[r], call, at).value;
    var key, cache := EnterKey(q).value, CacheOf(s, q.inst);
    assert call !in s.calls && key !in cache.inFlight;
    ProceedingFrame(q, Nothing, call);
    assert s' == PutCache(s, r, s'.reqs[r], Started(Dropped(cache, key, at), key, call))
                 .(calls := s.calls[call := CallInfo(key, r, None)]);
    hide Entering, Found;
    forall c ensures CallOk(s', c) { assert CallOk(s, c); }
    forall k ensures CacheOk(s', q.inst, k) {
      assert CacheOk(s, q.inst, k);
      DroppedOk(s.ever, s.ops, s.calls, cache, at, key, k);
      StartedOk(s.ever, s.ops, s.calls, Dropped(cache, key, at), key, call, r, k);
    }
  }

  lemma StartingKeeps(s: State, r: nat, call: nat, at: int)
    requires Inv(s) && r in s.reqs && Entering(s, r, s.reqs[r], call, at).Some?
    requires Found(CacheOf(s, s.reqs[r].inst), EnterKey(s.reqs[r]).value, at) == Nothing
    ensures Inv(Entering(s, r, s.reqs[r], call, at).value)
  {
    var q, s' := s.reqs[r], Entering(s, r, s.reqs[r], call, at).value;
    var key, cache := EnterKey(q).value, CacheOf(s, q.inst);
    Facts(s, r);
    hide Local, WaitOk, OwnOk, KeyOk, LiveOk, SlotOk, EnterKey, Found, CacheOk;
    hide CallOk, SameFlights, Proceeding, Dropped, Started, Inv, Extends;
    StartingCache(s, r, call, at);
    ProceedingFrame(q, Nothing, call);
    EnteredLocal(s.ever, s.ops, s.calls, q, Nothing, call);
    LocalGrows(s, s', s'.reqs[r]);
    StillOwns(cache, CacheOf(s', q.inst), s.calls, s'.calls, r, q);
    EnteredOwns(CacheOf(s', q.inst), s'.calls, r, q, Nothing, call, key);
    AllStillOwn(s, s', q.inst);
    CacheStepKeeps(s, s', r);
  }

  lemma EnteringKeeps(s: State, r: nat, call: nat, at: int)
    requires Inv(s) && r in s.reqs && Entering(s, r, s.reqs[r], call, at).Some?
    ensures Inv(Entering(s, r, s.reqs[r], call, at).value)
  {
    hide Inv, EnterKey;
    assert EnterKey(s.reqs[r]).Some?;
    hide Entering, Found, CacheOf;
    if Found(CacheOf(s, s.reqs[r].inst), EnterKey(s.reqs[r]).value, at) == Nothing { StartingKeeps(s, r, call, at); }
    else { JoiningKeeps(s, r, call, at); }
  }

  // ---- leaving Do -----------------------------------------------------------------------------------------

  /** The call a request is about to end, its key, the outcome and the phase after it. */
  function Ending(q: Request): Option<(Option<nat>, Key, Answer, Phase)> {
    match q.phase
    case Executing(InnerReturning(o)) => Some((q.innerCall, InnerKey(q), o, Executing(InnerSettling(o))))
    case Returning(o) => Some((q.outerCall, OuterKey(q), o, Settling(o)))
    case _ => None
  }

  lemma EndingLocal(ever: set<Slot>, ops: map<string, string>, calls: map<nat, CallInfo>, q: Request)
    requires Local(ever, ops, q) && Ending(q).Some?
    ensures OutcomeOk(ever, Ending(q).value.1, Ending(q).value.2)
    ensures var q' := q.(phase := Ending(q).value.3); Local(ever, ops, q') && WaitOk(calls, q')
  {
  }

  lemma CallReturnsFacts(s: State, r: nat, q: Request)
    requires CallReturns(s, r, q).Some?
    ensures Ending(q).Some? && Ending(q).value.0.Some? && Ending(q).value.0.value in s.calls
    ensures var (call, _, o, phase) := Ending(q).value;
      CallReturns(s, r, q) ==
        Some(Put(s, r, q.(phase := phase)).(calls := s.calls[call.value := s.calls[call.value].(outcome := Some(o))]))
  {
  }

  lemma CallReturnsLocal(s: State, r: nat)
    requires Inv(s) && r in s.reqs && CallReturns(s, r, s.reqs[r]).Some?
    ensures var s' := CallReturns(s, r, s.reqs[r]).value; Ready(s', r, s'.reqs[r]) && Extends(s, s')
    ensures forall c :: CallOk(CallReturns(s, r, s.reqs[r]).value, c)
  {
    var q, s' := s.reqs[r], CallReturns(s, r, s.reqs[r]).value;
    Facts(s, r);
    CallReturnsFacts(s, r, q);
    assert s.calls[Ending(q).value.0.value].key == Ending(q).value.1;
    hide CallReturns, Ending, SlotOk, CacheOk, LiveOk, OwnOk, Local, WaitOk;
    EndingLocal(s.ever, s.ops, s'.calls, q);
    forall c ensures CallOk(s', c) { assert CallOk(s, c); }
  }

  lemma CallReturnsKeeps(s: State, r: nat)
    requires Inv(s) && r in s.reqs && CallReturns(s, r, s.reqs[r]).Some?
    ensures Inv(CallReturns(s, r, s.reqs[r]).value)
  {
    var q, s' := s.reqs[r], CallReturns(s, r, s.reqs[r]).value;
    Facts(s, r);
    CallReturnsLocal(s, r);
    hide Local, WaitOk, CallOk;
    forall key ensures CacheOk(s', q.inst, key) { assert CacheOk(s, q.inst, key); }
    assert SameFlights(CacheOf(s, q.inst), CacheOf(s', q.inst));
    hide SameFlights, KeyOk, OwnOk;
    AllStillOwn(s, s', q.inst);
    SameCalls(CacheOf(s', q.inst), s'.calls, r, q, s'.reqs[r]);
    OtherInstances(s, s', r);
  }

  /** Like a cache step, but other instances see the same calls with new outcomes. */
  lemma OtherInstances(s: State, s': State, r: nat)
    requires Inv(s) && r in s.reqs && r in s'.reqs
    requires s' == s.(reqs := s.reqs[r := s'.reqs[r]], calls := s'.calls)
    requires Ready(s', r, s'.reqs[r]) && Extends(s, s') && OwnOk(CacheOf(s', s'.reqs[r].inst), s'.calls, r, s'.reqs[r])
    requires (forall c :: CallOk(s', c)) && (forall key :: CacheOk(s', s.reqs[r].inst, key))
    requires var (q, q') := (s.reqs[r], s'.reqs[r]);
      q'.inst == q.inst && q'.slot == q.slot && q'.lapsed == q.lapsed && q'.minted == q.minted &&
      q'.released == q.released
    ensures Inv(s')
  {
    hide Local, WaitOk;
    Facts(s, r);
    forall slot ensures SlotOk(s', slot) { assert SlotOk(s, slot); }
    forall inst, key ensures CacheOk(s', inst, key) { assert CacheOk(s, inst, key); }
    forall o | o in s.reqs && o != r
      ensures OwnOk(CacheOf(s', s.reqs[o].inst), s'.calls, o, s.reqs[o]) && LiveOk(s'.store, o, s.reqs[o])
    {
      assert ReqOk(s, o);
    }
    OneMoved(s, s', r);
  }

  lemma LeavingLocal(ever: set<Slot>, ops: map<string, string>, calls: map<nat, CallInfo>, q: Request)
    requires Local(ever, ops, q) && Leaving(q).Some?
    ensures var (key, o, q') := Leaving(q).value; OutcomeOk(ever, key, o) && Local(ever, ops, q') && WaitOk(calls, q')
  {
  }

  lemma CallSettlesLocal(s: State, r: nat, ttl: int, at: int, later: int)
    requires Inv(s) && r in s.reqs && CallSettles(s, r, s.reqs[r], ttl, at, later).Some?
    ensures var s' := CallSettles(s, r, s.reqs[r], ttl, at, later).value; Ready(s', r, s'.reqs[r])
  {
    Facts(s, r);
    hide Inv, SlotOk, CacheOk, LiveOk, CallOk, OwnOk, Settled, CacheOf, Leaving, Local, WaitOk;
    LeavingLocal(s.ever, s.ops, s.calls, s.reqs[r]);
  }

  /** The key whose call a request is about to settle, and that call. */
  function SettlingKey(q: Request): Option<Key> {
    match q.phase
    case Executing(InnerSettling(_)) => Some(InnerKey(q))
    case Settling(_) => Some(OuterKey(q))
    case _ => None
  }

  lemma CallSettlesFacts(s: State, r: nat, ttl: int, at: int, later: int)
    requires Inv(s) && r in s.reqs && CallSettles(s, r, s.reqs[r], ttl, at, later).Some?
    ensures SettlingKey(s.reqs[r]).Some?
    ensures var q, s' := s.reqs[r], CallSettles(s, r, s.reqs[r], ttl, at, later).value;
      var o := if q.phase.Settling? then q.phase.outcome else q.phase.exec.outcome;
      var key, cache := SettlingKey(q).value, CacheOf(s, q.inst);
      key in cache.inFlight && OutcomeOk(s.ever, key, o) &&
      OwnsFlight(cache, s.calls, key, cache.inFlight[key].call, r) &&
      s' == PutCache(s, r, s'.reqs[r], Settled(cache, key, o, ttl, at, later))
    ensures var q, q' := s.reqs[r], CallSettles(s, r, s.reqs[r], ttl, at, later).value.reqs[r];
      q'.inst == q.inst && q'.slot == q.slot && q'.lapsed == q.lapsed && q'.minted == q.minted &&
      q'.released == q.released &&
      if SettlingKey(q) == Some(OuterKey(q)) then q'.outerCall == None && q'.innerCall == q.innerCall == None
      else q'.innerCall == None && q'.outerCall == q.outerCall
  {
    Facts(s, r);
    hide Inv, SlotOk, CacheOk, LiveOk, CallOk, Settled, CacheOf;
  }

  /** After settling, the caller's other call is still in flight. */
  lemma OwnAfterSettling(cache: ScanCache, calls: map<nat, CallInfo>, r: nat, q: Request, q': Request, key: Key,
                         o: Answer, ttl: int, at: int, later: int)
    requires OwnOk(cache, calls, r, q) && key in cache.inFlight && q'.slot == q.slot
    requires key == OuterKey(q) || key == InnerKey(q)
    requires if key == OuterKey(q) then q'.outerCall == None && q'.innerCall == None
      else q'.innerCall == None && q'.outerCall == q.outerCall
    ensures OwnOk(Settled(cache, key, o, ttl, at, later), calls, r, q')
  {
  }

  lemma CallSettlesKeeps(s: State, r: nat, ttl: int, at: int, later: int)
    requires Inv(s) && r in s.reqs && CallSettles(s, r, s.reqs[r], ttl, at, later).Some?
    ensures Inv(CallSettles(s, r, s.reqs[r], ttl, at, later).value)
  {
    var q, s' := s.reqs[r], CallSettles(s, r, s.reqs[r], ttl, at, later).value;
    var key, cache := SettlingKey(q), CacheOf(s, q.inst);
    CallSettlesFacts(s, r, ttl, at, later);
    CallSettlesLocal(s, r, ttl, at, later);
    Facts(s, r);
    assert key == Some(OuterKey(q)) || key == Some(InnerKey(q));
    var o := if q.phase.Settling? then q.phase.outcome else q.phase.exec.outcome;
    hide CallSettles, SettlingKey, Local, WaitOk, OwnOk, KeyOk, LiveOk, SlotOk, Settled, OwnsFlight;
    OwnAfterSettling(cache, s.calls, r, q, s'.reqs[r], key.value, o, ttl, at, later);
    forall c ensures CallOk(s', c) { assert CallOk(s, c); }
    forall k ensures CacheOk(s', q.inst, k) {
      assert CacheOk(s, q.inst, k) && CacheOk(s, q.inst, key.value);
      SettledOk(s.ever, s.ops, s.calls, cache, key.value, o, ttl, at, later, k);
    }
    hide CacheOk, CallOk;
    forall other | other in s.reqs && other != r && s.reqs[other].inst == q.inst
      ensures OwnOk(CacheOf(s', q.inst), s'.calls, other, s.reqs[other])
    {
      assert ReqOk(s, other);
      OthersStillOwn(cache, key.value, s.calls, o, ttl, at, later, cache.inFlight[key.value].call, r, other,
                     s.reqs[other]);
    }
    CacheStepKeeps(s, s', r);
  }

  // ---- the durable store ---------------------------------------------------------------------------------

  predicate SameRecord(s: State, s': State, slot: Slot) {
    (slot in s.store <==> slot in s'.store) && (slot in s.store ==> s'.store[slot] == s.store[slot])
  }

  /** Caches and calls stay in order when more slots are known. */
  lemma SharedStay(s: State, s': State)
    requires Inv(s) && s'.caches == s.caches && s'.calls == s.calls && s'.ops == s.ops && s.ever <= s'.ever
    ensures (forall c :: CallOk(s', c)) && (forall inst, key :: CacheOk(s', inst, key))
  {
    hide ReqOk, SlotOk;
    forall c ensures CallOk(s', c) { assert CallOk(s, c); }
    forall inst, key ensures CacheOk(s', inst, key) { assert CacheOk(s, inst, key); }
  }

  /** Only request `r` and its own slot changed, and nobody else lives in that slot. */
  lemma StoreStepKeeps(s: State, s': State, r: nat)
    requires Inv(s) && r in s.reqs && r in s'.reqs
    requires s' == s.(reqs := s.reqs[r := s'.reqs[r]], store := s'.store, ever := s'.ever)
    requires s.ever <= s'.ever && Ready(s', r, s'.reqs[r]) && LiveOk(s'.store, r, s'.reqs[r])
    requires var (q, q') := (s.reqs[r], s'.reqs[r]);
      q'.inst == q.inst && q'.slot == q.slot && q'.lapsed == q.lapsed && q'.outerCall == q.outerCall &&
      q'.innerCall == q.innerCall
    requires SlotOk(s', s.reqs[r].slot)
    requires forall slot :: slot != s.reqs[r].slot ==> SameRecord(s, s', slot)
    requires forall o :: o in s.reqs && o != r && s.reqs[o].slot == s.reqs[r].slot ==> LiveOk(s'.store, o, s.reqs[o])
    ensures Inv(s')
  {
    Facts(s, r);
    hide Local, WaitOk;
    SharedStay(s, s');
    hide CacheOk, CallOk;
    forall slot ensures SlotOk(s', slot) {
      assert SlotOk(s, slot) && (slot != s.reqs[r].slot ==> SameRecord(s, s', slot));
    }
    forall o | o in s.reqs && o != r
      ensures OwnOk(CacheOf(s', s.reqs[o].inst), s'.calls, o, s.reqs[o]) && LiveOk(s'.store, o, s.reqs[o])
    {
      assert ReqOk(s, o) && (s.reqs[o].slot != s.reqs[r].slot ==> SameRecord(s, s', s.reqs[o].slot));
    }
    SameCalls(CacheOf(s', s.reqs[r].inst), s'.calls, r, s.reqs[r], s'.reqs[r]);
    OneMoved(s, s', r);
  }

  lemma AfterReserveLocal(ever: set<Slot>, ops: map<string, string>, calls: map<nat, CallInfo>, q: Request, free: bool,
                          fails: bool, applied: bool)
    requires Local(ever, ops, q) && AfterReserve(q, free, fails, applied).Some? && (!free ==> q.slot in ever)
    ensures var (phase, minted) := AfterReserve(q, free, fails, applied).value;
      !q.minted && !q.released && (minted ==> free) &&
      if minted
      then Local(ever + {q.slot}, ops, q.(phase := phase, minted := true)) &&
           WaitOk(calls, q.(phase := phase, minted := true))
      else Local(ever, ops, q.(phase := phase)) && WaitOk(calls, q.(phase := phase))
  {
  }

  lemma ReservedSlots(s: State, r: nat, fails: bool, applied: bool)
    requires Inv(s) && r in s.reqs && Reserved(s, r, s.reqs[r], fails, applied).Some? && !s.reqs[r].minted
    requires !s.reqs[r].released
    requires AfterReserve(s.reqs[r], s.reqs[r].slot !in s.store, fails, applied).value.1 ==> s.reqs[r].slot !in s.store
    ensures var s' := Reserved(s, r, s.reqs[r], fails, applied).value;
      LiveOk(s'.store, r, s'.reqs[r]) && SlotOk(s', s.reqs[r].slot) &&
      forall o :: o in s.reqs && o != r && s.reqs[o].slot == s.reqs[r].slot ==> LiveOk(s'.store, o, s.reqs[o])
    ensures forall slot :: slot != s.reqs[r].slot ==>
      SameRecord(s, Reserved(s, r, s.reqs[r], fails, applied).value, slot)
  {
    hide Local, WaitOk, OwnOk, AfterReserve, CacheOk, CallOk;
    var q, s' := s.reqs[r], Reserved(s, r, s.reqs[r], fails, applied).value;
    assert SlotOk(s, q.slot);
    forall o | o in s.reqs && o != r && s.reqs[o].slot == q.slot
      ensures LiveOk(s'.store, o, s.reqs[o])
    {
      assert ReqOk(s, o);
    }
  }

  lemma ReservedKeeps(s: State, r: nat, fails: bool, applied: bool)
    requires Inv(s) && r in s.reqs && Reserved(s, r, s.reqs[r], fails, applied).Some?
    ensures Inv(Reserved(s, r, s.reqs[r], fails, applied).value)
  {
    hide Local, WaitOk, OwnOk, AfterReserve, CacheOk, CallOk;
    var q, s' := s.reqs[r], Reserved(s, r, s.reqs[r], fails, applied).value;
    Facts(s, r);
    AfterReserveLocal(s.ever, s.ops, s.calls, q, q.slot !in s.store, fails, applied);
    ReservedSlots(s, r, fails, applied);
    hide Inv, LiveOk, SlotOk, Minted, SameRecord, Ready;
    assert Ready(s', r, s'.reqs[r]);
    StoreStepKeeps(s, s', r);
  }

  lemma AfterRecordLocal(ever: set<Slot>, ops: map<string, string>, calls: map<nat, CallInfo>, q: Request,
                         recorded: bool)
    requires Local(ever, ops, q) && AfterRecord(q, true).Some?
    ensures AfterRecord(q, recorded).Some? && KnowsOp(ops, q.slot.image, AfterRecord(q, true).value.1)
    ensures var q' := q.(phase := AfterRecord(q, recorded).value.0); Local(ever, ops, q') && WaitOk(calls, q')
  {
  }

  lemma RecordsLocal(s: State, r: nat, fails: bool, applied: bool)
    requires Inv(s) && r in s.reqs && RecordsDurably(s, r, s.reqs[r], fails, applied).Some?
    ensures var s' := RecordsDurably(s, r, s.reqs[r], fails, applied).value; Ready(s', r, s'.reqs[r])
    ensures KnowsOp(s.ops, s.reqs[r].slot.image, AfterRecord(s.reqs[r], true).value.1)
  {
    Facts(s, r);
    hide Inv, CacheOk, OwnOk, CallOk, SlotOk, MayRecord, LiveOk, AfterRecord, Local, WaitOk;
    var q := s.reqs[r];
    AfterRecordLocal(s.ever, s.ops, s.calls, q, MayRecord(s, q.slot, AfterRecord(q, true).value.1) && !fails);
  }

  lemma RecordsKeeps(s: State, r: nat, fails: bool, applied: bool)
    requires Inv(s) && r in s.reqs && RecordsDurably(s, r, s.reqs[r], fails, applied).Some?
    ensures Inv(RecordsDurably(s, r, s.reqs[r], fails, applied).value)
  {
    var q, s' := s.reqs[r], RecordsDurably(s, r, s.reqs[r], fails, applied).value;
    RecordsLocal(s, r, fails, applied);
    Facts(s, r);
    hide Local, WaitOk, OwnOk, AfterRecord, CacheOk, KnowsOp;
    forall o | o in s.reqs && s.reqs[o].slot == q.slot ensures LiveOk(s'.store, o, s.reqs[o]) { assert ReqOk(s, o); }
    hide Inv;
    assert SlotOk(s', q.slot);
    hide Ready;
    StoreStepKeeps(s, s', r);
  }

  lemma ReleasedLocal(s: State, r: nat, fails: bool, applied: bool)
    requires Inv(s) && r in s.reqs && Released(s, r, s.reqs[r], fails, applied).Some?
    ensures var s' := Released(s, r, s.reqs[r], fails, applied).value;
      Ready(s', r, s'.reqs[r]) && LiveOk(s'.store, r, s'.reqs[r]) && SlotOk(s', s.reqs[r].slot) && Owns(s.reqs[r])
  {
    Facts(s, r);
    hide Inv, CacheOk, OwnOk, CallOk;
  }

  lemma ReleasedKeeps(s: State, r: nat, fails: bool, applied: bool)
    requires Inv(s) && r in s.reqs && Released(s, r, s.reqs[r], fails, applied).Some?
    ensures Inv(Released(s, r, s.reqs[r], fails, applied).value)
  {
    var q, s' := s.reqs[r], Released(s, r, s.reqs[r], fails, applied).value;
    ReleasedLocal(s, r, fails, applied);
    Facts(s, r);
    hide Local, WaitOk, OwnOk, SlotOk, CacheOk;
    forall o | o in s.reqs && o != r && s.reqs[o].slot == q.slot
      ensures LiveOk(s'.store, o, s.reqs[o])
    {
      assert ReqOk(s, o);
    }
    hide Inv, Ready;
    StoreStepKeeps(s, s', r);
  }

  // ---- the environment ---------------------------------------------------------------------------------------

  lemma ArrivedKeeps(s: State, r: nat, inst: nat, slot: Slot, soft: bool, capped: bool)
    requires Inv(s) && Arrived(s, r, inst, slot, soft, capped).Some?
    ensures Inv(Arrived(s, r, inst, slot, soft, capped).value)
  {
    var s' := Arrived(s, r, inst, slot, soft, capped).value;
    assert ReqOk(s', r);
    hide Local, WaitOk;
    forall o | o in s'.reqs ensures ReqOk(s', o) { if o != r { assert ReqOk(s, o); } }
    forall at ensures SlotOk(s', at) { assert SlotOk(s, at); }
    forall c ensures CallOk(s', c) { assert CallOk(s, c); }
    forall i, key ensures CacheOk(s', i, key) { assert CacheOk(s, i, key); }
  }

  lemma DiedLocal(ever: set<Slot>, ops: map<string, string>, calls: map<nat, CallInfo>, q: Request)
    requires Local(ever, ops, q) && WaitOk(calls, q)
    ensures Local(ever, ops, Died(q)) && WaitOk(calls, Died(q))
  {
  }

  lemma CrashingKeeps(s: State, inst: nat)
    requires Inv(s)
    ensures Inv(Crashing(s, inst))
  {
    var s' := Crashing(s, inst);
    hide Local, WaitOk;
    forall o | o in s'.reqs ensures ReqOk(s', o) {
      assert ReqOk(s, o);
      DiedLocal(s.ever, s.ops, s.calls, s.reqs[o]);
      DiedOwns(s, s.reqs[o], o, inst);
    }
    forall at ensures SlotOk(s', at) { assert SlotOk(s, at); }
    forall c ensures CallOk(s', c) { assert CallOk(s, c); }
    forall i, key ensures CacheOk(s', i, key) { assert CacheOk(s, i, key); }
  }

  lemma DiedOwns(s: State, q: Request, r: nat, inst: nat)
    requires OwnOk(CacheOf(s, q.inst), s.calls, r, q) && Local(s.ever, s.ops, q)
    ensures q.inst == inst ==> OwnOk(CacheOf(Crashing(s, inst), q.inst), s.calls, r, Died(q))
    ensures q.inst != inst ==> OwnOk(CacheOf(Crashing(s, inst), q.inst), s.calls, r, q)
  {
    hide PhaseOk;
  }

  lemma LapsedKeeps(s: State, slot: Slot)
    requires Inv(s) && Lapsed(s, slot).Some?
    ensures Inv(Lapsed(s, slot).value)
  {
    var s' := Lapsed(s, slot).value;
    forall o | o in s'.reqs ensures ReqOk(s', o) {
      assert ReqOk(s, o);
      if s.store[slot].holder == Some(o) { LapsedLocal(s.ever, s.ops, s.calls, s.reqs[o]); }
      hide Local, WaitOk;
    }
    hide Local, WaitOk;
    forall at ensures SlotOk(s', at) { assert SlotOk(s, at); }
    forall c ensures CallOk(s', c) { assert CallOk(s, c); }
    forall i, key ensures CacheOk(s', i, key) { assert CacheOk(s, i, key); }
  }

  lemma LapsedLocal(ever: set<Slot>, ops: map<string, string>, calls: map<nat, CallInfo>, q: Request)
    requires Local(ever, ops, q) && WaitOk(calls, q) && !Working(q)
    ensures Local(ever, ops, q.(lapsed := true)) && WaitOk(calls, q.(lapsed := true))
  {
  }

  lemma ReapedKeeps(s: State, slot: Slot)
    requires Inv(s) && Reaped(s, slot).Some?
    ensures Inv(Reaped(s, slot).value)
  {
    var s' := Reaped(s, slot).value;
    hide Local, WaitOk;
    forall o | o in s'.reqs ensures ReqOk(s', o) { assert ReqOk(s, o) && SlotOk(s, slot); }
    forall at ensures SlotOk(s', at) { assert SlotOk(s, at); }
    forall c ensures CallOk(s', c) { assert CallOk(s, c); }
    forall i, key ensures CacheOk(s', i, key) { assert CacheOk(s, i, key); }
  }

  // ---- every step, every run -----------------------------------------------------------------------------------

  lemma QuietActs(s: State, r: nat, action: Action)
    requires Inv(s) && r in s.reqs && Quiet(s, s.reqs[r], action).Some?
    ensures Inv(Put(s, r, s.reqs[r].(phase := Quiet(s, s.reqs[r], action).value)))
  {
    QuietLocal(s, r, action);
    hide Inv, Quiet, Local, WaitOk;
    QuietKeeps(s, Put(s, r, s.reqs[r].(phase := Quiet(s, s.reqs[r], action).value)), r);
  }

  lemma ActsKeeps(s: State, r: nat, action: Action)
    requires Inv(s) && r in s.reqs && Acts(s, r, s.reqs[r], action).Some?
    ensures Inv(Acts(s, r, s.reqs[r], action).value)
  {
    hide Inv, LookingUp, Entering, Reserved, RecordsDurably, NotingOperation, Sent;
    hide Answered, CallReturns, CallSettles, Released, Quiet, Ready;
    match action {
      case Lookup(at) => LookingUpKeeps(s, r, at);
      case EnterDo(call, at) => EnteringKeeps(s, r, call, at);
      case Reserve(fails, applied) => ReservedKeeps(s, r, fails, applied);
      case RecordOperation(fails, applied) => RecordsKeeps(s, r, fails, applied);
      case NoteOperation => NotingKeeps(s, r);
      case Send => SentKeeps(s, r);
      case Respond(response) => AnsweredKeeps(s, r, response);
      case Return => CallReturnsKeeps(s, r);
      case Settle(ttl, at, later) => CallSettlesKeeps(s, r, ttl, at, later);
      case Release(fails, applied) => ReleasedKeeps(s, r, fails, applied);
      case _ =>
        QuietActs(s, r, action);
    }
  }

  lemma StepKeeps(s: State, step: Step)
    requires Inv(s) && Next(s, step).Some?
    ensures Inv(Next(s, step).value)
  {
    hide Inv, Arrived, Acts, Crashing, Lapsed, Reaped;
    match step {
      case Arrive(r, inst, slot, soft, capped) => ArrivedKeeps(s, r, inst, slot, soft, capped);
      case Act(r, action) => ActsKeeps(s, r, action);
      case Crash(inst) => CrashingKeeps(s, inst);
      case Lapse(slot) => LapsedKeeps(s, slot);
      case Reap(slot) => ReapedKeeps(s, slot);
    }
  }

  /** Empty caches, no requests; reservations and accepted operations may be left from before. */
  ghost predicate Initial(s: State) {
    s.reqs == map[] && s.caches == map[] && s.calls == map[] && s.ever == s.store.Keys &&
    forall slot :: slot in s.store ==>
      s.store[slot].holder == None && (s.store[slot].op != "" ==> KnowsOp(s.ops, slot.image, s.store[slot].op))
  }

  ghost predicate Run(states: seq<State>, steps: seq<Step>) {
    |states| == |steps| + 1 && Initial(states[0]) &&
    forall k :: 0 <= k < |steps| ==> Next(states[k], steps[k]) == Some(states[k + 1])
  }

  lemma {:induction false} Reachable(states: seq<State>, steps: seq<Step>, k: nat)
    requires Run(states, steps) && k < |states|
    ensures Inv(states[k])
  {
    hide Next;
    if k > 0 {
      hide Inv;
      Reachable(states, steps, k - 1);
      assert Next(states[k - 1], steps[k - 1]) == Some(states[k]);
      StepKeeps(states[k - 1], steps[k - 1]);
    }
  }

  // ---- the spend fence ---------------------------------------------------------------------------------------------

  /** Requests for a slot whose image may have been billed. */
  function Spent(s: State, slot: Slot): set<nat> {
    set r | r in s.reqs && s.reqs[r].slot == slot && Billable(s.reqs[r])
  }

  /** Requests for a slot that minted a reservation and did not release it. */
  function Held(s: State, slot: Slot): set<nat> {
    set r | r in s.reqs && s.reqs[r].slot == slot && s.reqs[r].minted && !s.reqs[r].released
  }

  function Unexpired(s: State, slot: Slot): set<nat> {
    set r | r in Held(s, slot) && !s.reqs[r].lapsed
  }

  /**
   In every run: submissions that were not rejected never outnumber the reservations minted and kept,
   and at most one of those is unexpired.
   */
  lemma SpendFence(states: seq<State>, steps: seq<Step>, k: nat, slot: Slot)
    requires Run(states, steps) && k < |states|
    ensures Spent(states[k], slot) <= Held(states[k], slot) && |Spent(states[k], slot)| <= |Held(states[k], slot)|
    ensures |Unexpired(states[k], slot)| <= 1
  {
    var s := states[k];
    Reachable(states, steps, k);
    hide PhaseOk, WaitOk, OwnOk, CacheOk, SlotOk, CallOk, Run;
    forall r | r in Spent(s, slot) ensures r in Held(s, slot) { assert ReqOk(s, r); }
    SubsetSize(Spent(s, slot), Held(s, slot));
    forall r | r in Unexpired(s, slot)
      ensures slot in s.store && s.store[slot].holder == Some(r)
    {
      assert ReqOk(s, r);
    }
    if slot in s.store && s.store[slot].holder.Some? {
      SubsetSize(Unexpired(s, slot), {s.store[slot].holder.value});
    } else {
      assert Unexpired(s, slot) == {};
    }
  }

  /**
   A release takes a reservation away exactly when the provider's rejection is what the request is left
   with and the call was applied; the reservation is its own, and its own submission is not billed.
   */
  lemma ReleaseIsOwn(states: seq<State>, steps: seq<Step>, k: nat, slot: Slot)
    requires Run(states, steps) && k < |steps| && steps[k].Act? && steps[k].action.Release? && slot in states[k].store
    ensures steps[k].r in states[k].reqs
    ensures var q, call := states[k].reqs[steps[k].r], steps[k].action;
      q.phase.Owning? && q.phase.own.Releasing? &&
      (slot !in states[k + 1].store <==>
         slot == q.slot && q.phase.own.outcome.err == Some(NOT_SUBMITTED) && (call.applied || !call.fails)) &&
      (slot !in states[k + 1].store ==> states[k].store[slot].holder == Some(steps[k].r) && !Billable(q))
  {
    var s, r := states[k], steps[k].r;
    Reachable(states, steps, k);
    assert Next(s, steps[k]) == Some(states[k + 1]);
    assert ReqOk(s, r);
    hide Run, Inv, WaitOk, OwnOk;
  }

  /** Only a release or an expiry ever takes a reservation out of the store. */
  lemma ReservationsStay(states: seq<State>, steps: seq<Step>, k: nat, slot: Slot)
    requires Run(states, steps) && k < |steps| && slot in states[k].store && slot !in states[k + 1].store
    ensures (steps[k].Act? && steps[k].action.Release?) || (steps[k] == Reap(slot) && states[k].store[slot].expired)
  {
    var s := states[k];
    assert Next(s, steps[k]) == Some(states[k + 1]);
    hide Run, Quiet, Recorded;
    LeavesStore(s, steps[k], slot);
  }

  lemma LeavesStore(s: State, step: Step, slot: Slot)
    requires Next(s, step).Some? && slot in s.store && slot !in Next(s, step).value.store
    ensures (step.Act? && step.action.Release?) || (step == Reap(slot) && s.store[slot].expired)
  {
    hide Quiet, Found, Dropped, Started, Settled, LookedUp, Recorded;
    hide CacheOf, Proceeding, EnterKey, AfterRecord, MayRecord, Died;
  }

  // ---- capped requests, results -----------------------------------------------------------------

  /**
   A rate-capped request never reserves or submits, and succeeds only where its own identity reserved
   that image before; one that cannot attest is turned away.
   */
  lemma CappedOnlyRecovers(states: seq<State>, steps: seq<Step>, k: nat, r: nat)
    requires Run(states, steps) && k < |states| && r in states[k].reqs && states[k].reqs[r].capped
    ensures var q := states[k].reqs[r];
      !q.minted && q.sub == Unsent && !q.phase.Owning? && !q.phase.Executing? &&
      (q.phase.Finished? && q.phase.outcome.err == None ==> q.slot in states[k].ever) &&
      (q.soft ==> q.phase.Finished? && q.phase.outcome.err.Some?)
  {
    Reachable(states, steps, k);
    assert ReqOk(states[k], r);
    hide Run, Inv, WaitOk, OwnOk;
  }

  /** `ever` is honest: a slot is in it exactly when it was in the store at some time so far. */
  lemma {:induction false} EverIsHistory(states: seq<State>, steps: seq<Step>, k: nat, slot: Slot)
    requires Run(states, steps) && k < |states|
    ensures slot in states[k].ever <==> exists j :: 0 <= j <= k && slot in states[j].store
  {
    if k > 0 {
      EverIsHistory(states, steps, k - 1, slot);
      Reachable(states, steps, k);
      assert SlotOk(states[k], slot);
      assert Next(states[k - 1], steps[k - 1]) == Some(states[k]);
      hide Run;
      EverStep(states[k - 1], steps[k - 1], slot);
    } else {
      hide Next;
    }
  }

  lemma EverStep(s: State, step: Step, slot: Slot)
    requires Next(s, step).Some?
    ensures slot in Next(s, step).value.ever ==> slot in s.ever || slot in Next(s, step).value.store
    ensures slot in s.ever ==> slot in Next(s, step).value.ever
  {
    hide Acts;
    if step.Act? && step.r in s.reqs { EverActs(s, step.r, s.reqs[step.r], step.action, slot); }
  }

  lemma EverActs(s: State, r: nat, q: Request, action: Action, slot: Slot)
    requires Acts(s, r, q, action).Some?
    ensures var s' := Acts(s, r, q, action).value;
      s.ever <= s'.ever && (slot in s'.ever ==> slot in s.ever || slot in s'.store)
  {
    hide Quiet, CacheOf, AfterReserve, AfterRecord, AfterResponse, AfterLookup;
    hide EnterKey, Proceeding, Leaving, Releases, MayRecord;
  }

  /**
   Whatever way a result came, through caches, waits or recovered operations, it is the analysis of the
   caller's own image.
   */
  lemma ResultsAreOwn(states: seq<State>, steps: seq<Step>, k: nat, r: nat)
    requires Run(states, steps) && k < |states| && r in states[k].reqs
    requires states[k].reqs[r].phase.Finished? && states[k].reqs[r].phase.outcome.err == None
    ensures states[k].reqs[r].phase.outcome.result == Some(states[k].reqs[r].slot.image)
    ensures states[k].reqs[r].slot in states[k].ever
  {
    Reachable(states, steps, k);
    assert ReqOk(states[k], r);
    hide Run, Inv, WaitOk, OwnOk;
  }

  /** On one instance no image is executed twice at once, and no identity's admission of it either. */
  lemma SingleExecutor(states: seq<State>, steps: seq<Step>, k: nat, a: nat, b: nat)
    requires Run(states, steps) && k < |states| && a in states[k].reqs && b in states[k].reqs
    requires states[k].reqs[a].inst == states[k].reqs[b].inst
    ensures states[k].reqs[a].phase.Executing? && states[k].reqs[b].phase.Executing? ==>
      (states[k].reqs[a].slot.image == states[k].reqs[b].slot.image ==> a == b)
    ensures RunsOuter(states[k].reqs[a].phase) && RunsOuter(states[k].reqs[b].phase) ==>
      (states[k].reqs[a].slot == states[k].reqs[b].slot ==> a == b)
  {
    Reachable(states, steps, k);
    assert ReqOk(states[k], a) && ReqOk(states[k], b);
    hide Run, Inv, WaitOk, PhaseOk;
  }

  /** A request that runs a call always finds it in flight, so it can always hand its outcome over and settle. */
  lemma OwnersAlwaysSettle(states: seq<State>, steps: seq<Step>, k: nat, r: nat, ttl: int, at: int, later: int)
    requires Run(states, steps) && k < |states| && r in states[k].reqs
    ensures Ending(states[k].reqs[r]).Some? ==> CallReturns(states[k], r, states[k].reqs[r]).Some?
    ensures SettlingKey(states[k].reqs[r]).Some? ==> CallSettles(states[k], r, states[k].reqs[r], ttl, at, later).Some?
  {
    Reachable(states, steps, k);
    assert ReqOk(states[k], r);
    hide Run, Inv, WaitOk, PhaseOk, Settled;
  }
}
