/**
 Scans succeed: whenever nothing in the state stands in the way, a request that meets no failure ends
 with the analysis of its image (cmd/ocr/main.go:457-600).
 */
module ScanSuccess {
  import opened Wrappers
  import opened Coalescer
  import opened ScanProtocol
  import opened ScanSafety
  import opened ScanProgress
  import opened ScanWaits
  import SpendStore

  /** The request ended, without an error and with the analysis of its image. */
  predicate Succeeded(q: Request) {
    q.phase.Finished? && q.phase.outcome.err == None && q.phase.outcome.result == Some(q.slot.image)
  }

  /** The store and the provider do what they are asked, and the client stays. */
  predicate Unfailing(action: Action) {
    match action
    case Abandon => false
    case HasReservation(fails) => !fails
    case ReadOperation(fails) => !fails
    case Poll(succeeds) => succeeds
    case Reserve(fails, _) => !fails
    case RecordOperation(fails, _) => !fails
    case Respond(response) => response.Acceptance?
    case Release(fails, _) => !fails
    case _ => true
  }

  // ---- a poll that succeeds ------------------------------------------------------------------------

  /** The operation a request polls. */
  function PolledOperation(p: Phase): Option<string> {
    match p
    case Admitting(Resuming(op)) => Some(op)
    case Executing(Polling(op)) => Some(op)
    case _ => None
  }

  /** The outcome a request is about to hand over. */
  function Outgoing(p: Phase): Option<Answer> {
    match p
    case Returning(o) => Some(o)
    case Executing(InnerReturning(o)) => Some(o)
    case _ => None
  }

  /** In every reachable state a successful poll brings the analysis of the polled operation's image, the caller's. */
  lemma PollSucceeds(states: seq<State>, steps: seq<Step>, k: nat, r: nat, op: string)
    requires Run(states, steps) && k < |states| && r in states[k].reqs
    requires PolledOperation(states[k].reqs[r].phase) == Some(op)
    ensures var s, s' := states[k], Next(states[k], Act(r, Poll(true)));
      s'.Some? && r in s'.value.reqs && op in s.ops && s.ops[op] == s.reqs[r].slot.image &&
      var o := Outgoing(s'.value.reqs[r].phase);
      o.Some? && o.value.err == None && o.value.result == Some(s.ops[op])
  {
    Reachable(states, steps, k);
    assert ReqOk(states[k], r);
    hide Run, Inv, WaitOk, OwnOk, LiveOk;
  }

  // ---- what a request needs ------------------------------------------------------------------------

  predicate EndedWell(s: State, c: nat) {
    c in s.calls && s.calls[c].outcome.Some? && s.calls[c].outcome.value.err == None
  }

  /** The instance has a result for the key, a call that ended well, or nothing. */
  predicate Open(s: State, inst: nat, key: Key, now: int) {
    match Found(CacheOf(s, inst), key, now)
    case Join(c) => EndedWell(s, c)
    case _ => true
  }

  predicate Absent(s: State, inst: nat, key: Key, now: int) { Found(CacheOf(s, inst), key, now) == Nothing }

  predicate Cached(s: State, inst: nat, key: Key, now: int) {
    key in CacheOf(s, inst).done && Servable(CacheOf(s, inst).done[key], now)
  }

  /** The operation of the image that can be seen on the request's instance. */
  function Seen(s: State, q: Request, now: int): string { OperationOf(CacheOf(s, q.inst), InnerKey(q), now) }

  predicate Keepable(s: State, q: Request, now: int) { Seen(s, q, now) == "" || MayRecord(s, q.slot, Seen(s, q, now)) }

  /** The slot is reserved, unexpired, and names an accepted operation. */
  predicate Resumable(s: State, slot: Slot) { slot in s.store && !s.store[slot].expired && s.store[slot].op != "" }

  /** The provider may name a new execution of the image `op`. */
  predicate Nameable(s: State, q: Request, op: string) {
    MayName(s.ops, op, q.slot.image) && SpendStore.ValidReference(op)
  }

  predicate Shareable(s: State, q: Request, now: int) {
    Open(s, q.inst, InnerKey(q), now) &&
    (q.soft || Seen(s, q, now) == "" || SpendStore.ValidReference(Seen(s, q, now)))
  }

  /** The slot is free and its image can be executed or shared, or it is taken and there is something to recover. */
  predicate Admissible(s: State, q: Request, op: string, now: int) {
    if q.slot !in s.store
    then if Absent(s, q.inst, InnerKey(q), now) then Nameable(s, q, op) else Shareable(s, q, now)
    else !q.soft && Recoverable(s, q, now)
  }

  predicate Recoverable(s: State, q: Request, now: int) {
    if Cached(s, q.inst, InnerKey(q), now) then Keepable(s, q, now) else Resumable(s, q.slot)
  }

  predicate Executable(s: State, q: Request, op: string) {
    Nameable(s, q, op) && (q.soft || MayRecord(s, q.slot, op))
  }

  predicate LookingWell(s: State, q: Request, p: Capped, now: int) {
    match p
    case CapStart =>
      Open(s, q.inst, OuterKey(q), now) && (Absent(s, q.inst, OuterKey(q), now) ==> CapRecoverable(s, q, now))
    case CapLookup => Open(s, q.inst, OuterKey(q), now) && CapRecoverable(s, q, now)
    case CapHas(_) => q.slot in s.store
    case CapRead => Open(s, q.inst, OuterKey(q), now) && Resumable(s, q.slot)
    case CapEnter(_) => Open(s, q.inst, OuterKey(q), now)
  }

  predicate CapRecoverable(s: State, q: Request, now: int) {
    if Cached(s, q.inst, InnerKey(q), now) then q.slot in s.store else Resumable(s, q.slot)
  }

  predicate AdmittingWell(s: State, q: Request, p: Admit, op: string, now: int) {
    match p
    case Start =>
      Open(s, q.inst, OuterKey(q), now) && (Absent(s, q.inst, OuterKey(q), now) ==> Admissible(s, q, op, now))
    case Reserving => Admissible(s, q, op, now)
    case Taken => Recoverable(s, q, now)
    case Replaying(_) => Keepable(s, q, now)
    case ReplayRecording(_, seen) => MayRecord(s, q.slot, seen)
    case TakenRead => Resumable(s, q.slot)
    case Resuming(_) => true
  }

  predicate OwningWell(s: State, q: Request, p: Own, op: string, now: int) {
    match p
    case EnterInner =>
      if Absent(s, q.inst, InnerKey(q), now) then Executable(s, q, op)
      else Open(s, q.inst, InnerKey(q), now) && (q.soft || Keepable(s, q, now))
    case InnerWait(c) => EndedWell(s, c) && (q.soft || Keepable(s, q, now))
    case AfterInner(owner, o) => o.err == None && (owner || q.soft || Keepable(s, q, now))
    case JoinRecording(o, seen) => o.err == None && MayRecord(s, q.slot, seen)
    case Releasing(o) => o.err == None
  }

  predicate ExecutingWell(s: State, q: Request, p: Exec, op: string) {
    match p
    case Sending => Executable(s, q, op)
    case Submitting => Executable(s, q, op)
    case Recording(accepted) => MayRecord(s, q.slot, accepted)
    case InnerReturning(o) => o.err == None
    case InnerSettling(o) => o.err == None
    case _ => true
  }

  /** Nothing stands between the request and its result. */
  predicate Promising(s: State, q: Request, op: string, now: int) {
    match q.phase
    case Looking(p) => LookingWell(s, q, p, now)
    case OuterWait(c) => EndedWell(s, c)
    case Admitting(p) => AdmittingWell(s, q, p, op, now)
    case Owning(p) => OwningWell(s, q, p, op, now)
    case Executing(p) => ExecutingWell(s, q, p, op)
    case Returning(o) => o.err == None
    case Settling(o) => o.err == None
    case Finished(o) => o.err == None
    case Crashed => false
  }

  // ---- one step ------------------------------------------------------------------------------------

  /** What a request does next when nothing fails. */
  function Forward(p: Phase, call: nat, op: string, now: int): Action {
    match p
    case Looking(c) =>
      (match c
       case CapStart => Recover(now) case CapLookup => Lookup(now) case CapHas(_) => HasReservation(false)
       case CapRead => ReadOperation(false) case CapEnter(_) => EnterDo(call, now))
    case OuterWait(_) => Wake
    case Admitting(a) =>
      (match a
       case Start => EnterDo(call, now) case Reserving => Reserve(false, true)
       case Taken => Lookup(now) case Replaying(_) => CheckOperation(now)
       case ReplayRecording(_, _) => RecordOperation(false, true)
       case TakenRead => ReadOperation(false) case Resuming(_) => Poll(true))
    case Owning(o) =>
      (match o
       case EnterInner => EnterDo(call, now) case InnerWait(_) => Wake case AfterInner(_, _) => CheckOperation(now)
       case JoinRecording(_, _) => RecordOperation(false, true) case Releasing(_) => Release(false, true))
    case Executing(e) =>
      (match e
       case Sending => Send case Submitting => Respond(Acceptance(op))
       case Recording(_) => RecordOperation(false, true) case Noting(_) => NoteOperation
       case Polling(_) => Poll(true) case InnerReturning(_) => Return case InnerSettling(_) => Settle(1, now, now))
    case Returning(_) => Return
    case _ => Settle(1, now, now)
  }

  /** The request got on, and nothing stands in its way. */
  predicate GotOn(s: State, r: nat, s': Option<State>, op: string, now: int) {
    s'.Some? && r in s.reqs && r in s'.value.reqs && s'.value.reqs[r].slot == s.reqs[r].slot &&
    Promising(s'.value, s'.value.reqs[r], op, now)
  }

  lemma ForwardIsUnfailing(p: Phase, call: nat, op: string, now: int)
    ensures Unfailing(Forward(p, call, op, now))
  {
  }

  /** Only the phase of `r` changed; caches, calls, store and operations are as they were. */
  lemma SamePromise(s: State, s': State, q: Request, op: string, now: int)
    requires s'.caches == s.caches && s'.calls == s.calls && s'.store == s.store && s'.ops == s.ops
    requires Promising(s, q, op, now)
    ensures Promising(s', q, op, now)
  {
    assert CacheOf(s', q.inst) == CacheOf(s, q.inst);
    hide Found, OperationOf, CacheOf, Servable, MayName, SpendStore.ValidReference;
  }

  /** Where a quiet step leads. */
  predicate Leads(s: State, q: Request, action: Action, op: string, now: int) {
    Quiet(s, q, action).Some? && Promising(s, q.(phase := Quiet(s, q, action).value), op, now)
  }

  lemma LookingQuietly(s: State, q: Request, call: nat, op: string, now: int)
    requires q.phase.Looking? && !q.phase.capped.CapLookup? && !q.phase.capped.CapEnter?
    requires Promising(s, q, op, now)
    ensures Leads(s, q, Forward(q.phase, call, op, now), op, now)
  {
    hide OperationOf;
  }

  lemma AdmittingQuietly(s: State, q: Request, call: nat, op: string, now: int)
    requires q.phase.Admitting? && Promising(s, q, op, now) && Local(s.ever, s.ops, q)
    requires q.phase.admit.Replaying? || q.phase.admit.TakenRead? || q.phase.admit.Resuming?
    ensures Leads(s, q, Forward(q.phase, call, op, now), op, now)
  {
    hide Found;
  }

  lemma OwningQuietly(s: State, q: Request, call: nat, op: string, now: int)
    requires q.phase.Owning? && Promising(s, q, op, now)
    requires q.phase.own.InnerWait? || q.phase.own.AfterInner?
    ensures Leads(s, q, Forward(q.phase, call, op, now), op, now)
  {
    hide Found;
  }

  lemma PollingQuietly(s: State, q: Request, call: nat, op: string, now: int)
    requires q.phase.Executing? && q.phase.exec.Polling? && Local(s.ever, s.ops, q)
    ensures Leads(s, q, Forward(q.phase, call, op, now), op, now)
  {
  }

  lemma WaitingQuietly(s: State, q: Request, call: nat, op: string, now: int)
    requires q.phase.OuterWait? && Promising(s, q, op, now)
    ensures Leads(s, q, Forward(q.phase, call, op, now), op, now)
  {
  }

  predicate TakesQuietStep(p: Phase) {
    match p
    case Looking(c) => !c.CapLookup? && !c.CapEnter?
    case OuterWait(_) => true
    case Admitting(a) => a.Replaying? || a.TakenRead? || a.Resuming?
    case Owning(o) => o.InnerWait? || o.AfterInner?
    case Executing(e) => e.Polling?
    case _ => false
  }

  lemma QuietLeads(s: State, r: nat, call: nat, op: string, now: int)
    requires Inv(s) && r in s.reqs && TakesQuietStep(s.reqs[r].phase) && Promising(s, s.reqs[r], op, now)
    ensures Leads(s, s.reqs[r], Forward(s.reqs[r].phase, call, op, now), op, now)
  {
    hide Leads, Promising, Forward, Local, Inv, CacheOk, SlotOk;
    Facts(s, r);
    var q := s.reqs[r];
    match q.phase {
      case Looking(_) => LookingQuietly(s, q, call, op, now);
      case OuterWait(_) => WaitingQuietly(s, q, call, op, now);
      case Admitting(_) => AdmittingQuietly(s, q, call, op, now);
      case Owning(_) => OwningQuietly(s, q, call, op, now);
      case _ => PollingQuietly(s, q, call, op, now);
    }
  }

  lemma QuietOn(s: State, r: nat, call: nat, op: string, now: int)
    requires Inv(s) && r in s.reqs && TakesQuietStep(s.reqs[r].phase) && Promising(s, s.reqs[r], op, now)
    ensures GotOn(s, r, Acts(s, r, s.reqs[r], Forward(s.reqs[r].phase, call, op, now)), op, now)
  {
    hide Promising, Quiet, Inv, Acts, Forward, TakesQuietStep;
    QuietLeads(s, r, call, op, now);
    var q := s.reqs[r];
    var action := Forward(q.phase, call, op, now);
    QuietActsAlone(s, r, q, call, op, now);
    var q' := q.(phase := Quiet(s, q, action).value);
    SamePromise(s, Put(s, r, q'), q', op, now);
  }

  lemma QuietActsAlone(s: State, r: nat, q: Request, call: nat, op: string, now: int)
    requires TakesQuietStep(q.phase) && Quiet(s, q, Forward(q.phase, call, op, now)).Some?
    ensures Acts(s, r, q, Forward(q.phase, call, op, now)) ==
      Some(Put(s, r, q.(phase := Quiet(s, q, Forward(q.phase, call, op, now)).value)))
  {
    hide Quiet;
  }

  // ---- steps on the cache ---------------------------------------------------------------------------

  /** What can be found and seen under `key` is the same in both caches. */
  predicate SameFor(c: ScanCache, c': ScanCache, key: Key, now: int) {
    Found(c', key, now) == Found(c, key, now) && OperationOf(c', key, now) == OperationOf(c, key, now) &&
    (key in c.done && Servable(c.done[key], now) <==> key in c'.done && Servable(c'.done[key], now))
  }

  lemma LookedUpSame(c: ScanCache, key: Key, now: int, other: Key)
    ensures SameFor(c, LookedUp(c, key, now), other, now)
  {
  }

  lemma EnteredSame(c: ScanCache, key: Key, call: nat, now: int, other: Key)
    requires other != key
    ensures SameFor(c, Started(Dropped(c, key, now), key, call), other, now)
  {
  }

  /** Whoever finds something leaves it as it was. */
  lemma SharedSame(c: ScanCache, key: Key, now: int, other: Key)
    requires Found(c, key, now) != Nothing
    ensures SameFor(c, Dropped(c, key, now), other, now)
  {
  }

  /** A cache step that leaves the request's keys as they were keeps the promise. */
  lemma SameCachePromise(s: State, s': State, q: Request, op: string, now: int)
    requires s'.store == s.store && s'.ops == s.ops
    requires forall c :: c in s.calls ==> c in s'.calls && s'.calls[c] == s.calls[c]
    requires SameFor(CacheOf(s, q.inst), CacheOf(s', q.inst), InnerKey(q), now)
    requires SameFor(CacheOf(s, q.inst), CacheOf(s', q.inst), OuterKey(q), now) || q.phase != Looking(CapRead)
    requires !q.phase.Looking? || q.phase.capped.CapRead? || q.phase.capped.CapHas?
    requires q.phase != Admitting(Start) && Promising(s, q, op, now)
    ensures Promising(s', q, op, now)
  {
    hide Found, OperationOf, CacheOf, Servable;
  }

  /** A lookup leads on: to the cached result, or to the durable record. */
  lemma LookupLeads(s: State, q: Request, op: string, now: int)
    requires q.phase == Looking(CapLookup) || q.phase == Admitting(Taken)
    requires Promising(s, q, op, now)
    ensures var cache, key := CacheOf(s, q.inst), InnerKey(q);
      var cached := if key in cache.done && Servable(cache.done[key], now) then cache.done[key].result else None;
      AfterLookup(q, cached).Some? && Promising(s, q.(phase := AfterLookup(q, cached).value), op, now) &&
      var p := AfterLookup(q, cached).value;
      p != Admitting(Start) && (p.Looking? ==> p.capped.CapRead? || p.capped.CapHas?)
  {
    hide Found, OperationOf, CacheOf;
  }

  lemma LookupActs(s: State, r: nat, q: Request, at: int)
    requires q.phase == Looking(CapLookup) || q.phase == Admitting(Taken)
    ensures var cache, key := CacheOf(s, q.inst), InnerKey(q);
      var cached := if key in cache.done && Servable(cache.done[key], at) then cache.done[key].result else None;
      AfterLookup(q, cached).Some? && Acts(s, r, q, Lookup(at)) ==
        Some(PutCache(s, r, q.(phase := AfterLookup(q, cached).value), LookedUp(cache, key, at)))
  {
    hide Quiet, Entering, Reserved, RecordsDurably, NotingOperation, Sent, Answered, CallReturns, CallSettles, LookedUp;
  }

  lemma PutCacheParts(s: State, r: nat, q: Request, cache: ScanCache)
    ensures var s' := PutCache(s, r, q, cache);
      CacheOf(s', q.inst) == cache && s'.store == s.store && s'.ops == s.ops && s'.calls == s.calls &&
      r in s'.reqs && s'.reqs[r] == q
  {
  }

  lemma LookupOn(s: State, r: nat, op: string, now: int)
    requires r in s.reqs && (s.reqs[r].phase == Looking(CapLookup) || s.reqs[r].phase == Admitting(Taken))
    requires Promising(s, s.reqs[r], op, now)
    ensures GotOn(s, r, Acts(s, r, s.reqs[r], Lookup(now)), op, now)
  {
    hide Acts, Promising, AfterLookup, LookedUp, SameFor, Servable, CacheOf, PutCache;
    var q := s.reqs[r];
    var cache, key := CacheOf(s, q.inst), InnerKey(q);
    LookupLeads(s, q, op, now);
    LookupActs(s, r, q, now);
    var cached := if key in cache.done && Servable(cache.done[key], now) then cache.done[key].result else None;
    var q' := q.(phase := AfterLookup(q, cached).value);
    PutCacheParts(s, r, q', LookedUp(cache, key, now));
    LookedUpSame(cache, key, now, InnerKey(q'));
    LookedUpSame(cache, key, now, OuterKey(q'));
    SameCachePromise(s, PutCache(s, r, q', LookedUp(cache, key, now)), q', op, now);
  }

  /** What finding something, or nothing, leads to. */
  predicate EntersWell(s: State, q: Request, key: Key, call: nat, op: string, now: int) {
    var q' := Proceeding(q, Found(CacheOf(s, q.inst), key, now), call);
    Promising(s, q', op, now) && q'.inst == q.inst && q'.slot == q.slot && !q'.phase.Looking? &&
    q'.phase != Admitting(Start) && (q'.phase.Owning? ==> Found(CacheOf(s, q.inst), key, now) != Nothing) &&
    key == if q.phase.Owning? then InnerKey(q) else OuterKey(q)
  }

  lemma EnterFirst(s: State, q: Request, call: nat, op: string, now: int)
    requires q.phase == Admitting(Start) && Promising(s, q, op, now)
    ensures EntersWell(s, q, OuterKey(q), call, op, now)
  {
    hide Found, OperationOf, CacheOf, Servable, MayName, MayRecord, SpendStore.ValidReference;
  }

  lemma EnterCapped(s: State, q: Request, call: nat, op: string, now: int)
    requires q.phase.Looking? && q.phase.capped.CapEnter? && Promising(s, q, op, now)
    ensures EntersWell(s, q, OuterKey(q), call, op, now)
  {
    hide Found, OperationOf, CacheOf, Servable, MayName, MayRecord, SpendStore.ValidReference;
  }

  lemma EnterShared(s: State, q: Request, call: nat, op: string, now: int)
    requires q.phase == Owning(EnterInner) && Promising(s, q, op, now)
    ensures EntersWell(s, q, InnerKey(q), call, op, now)
  {
    hide Found, OperationOf, CacheOf, Servable, MayName, MayRecord, SpendStore.ValidReference;
  }

  lemma SendingPromise(s: State, s': State, q: Request, op: string, now: int)
    requires q.phase == Executing(Sending) && Promising(s, q, op, now) && s'.store == s.store && s'.ops == s.ops
    ensures Promising(s', q, op, now)
  {
  }

  lemma EnterOn(s: State, r: nat, call: nat, op: string, now: int)
    requires r in s.reqs && EnterKey(s.reqs[r]).Some? && Promising(s, s.reqs[r], op, now) && call !in s.calls
    ensures GotOn(s, r, Acts(s, r, s.reqs[r], EnterDo(call, now)), op, now)
  {
    hide Quiet, LookingUp, Reserved, RecordsDurably, NotingOperation, Sent, Answered, CallReturns, CallSettles;
    hide Released, Open, Absent, Admissible, Recoverable, Executable, Keepable;
    var q := s.reqs[r];
    var key, cache := EnterKey(q).value, CacheOf(s, q.inst);
    var found := Found(cache, key, now);
    assert EntersWell(s, q, key, call, op, now) by {
      hide EntersWell, Promising;
      match q.phase {
        case Looking(_) => EnterCapped(s, q, call, op, now);
        case Admitting(_) => EnterFirst(s, q, call, op, now);
        case _ => EnterShared(s, q, call, op, now);
      }
    }
    var q' := Proceeding(q, found, call);
    var s' := Acts(s, r, q, EnterDo(call, now)).value;
    assert s'.store == s.store && s'.ops == s.ops && s'.reqs[r] == q';
    assert CacheOf(s', q.inst) ==
      if found == Nothing then Started(Dropped(cache, key, now), key, call) else Dropped(cache, key, now);
    assert forall c :: c in s.calls ==> c in s'.calls && s'.calls[c] == s.calls[c];
    assert q.phase.Owning? && found == Nothing ==> q'.phase == Executing(Sending);
    hide Promising, Proceeding, EnterKey, CacheOf, Acts, SameFor, Found, Started, Dropped, Entering;
    if found != Nothing {
      SharedSame(cache, key, now, InnerKey(q));
      SharedSame(cache, key, now, OuterKey(q));
      SameCachePromise(s, s', q', op, now);
    } else if q.phase.Owning? {
      SendingPromise(s, s', q', op, now);
    } else {
      EnteredSame(cache, key, call, now, InnerKey(q));
      SameCachePromise(s, s', q', op, now);
    }
  }

  // ---- steps on the store, and of the provider ---------------------------------------------------------

  /** The reservation just minted can keep whatever the image's execution will name. */
  lemma MintedPromise(s: State, s': State, q: Request, op: string, now: int)
    requires q.phase == Owning(EnterInner) && q.slot !in s.store
    requires Promising(s, q.(phase := Admitting(Reserving)), op, now)
    requires q.slot in s'.store && !s'.store[q.slot].expired && s'.store[q.slot].op == ""
    requires s'.caches == s.caches && s'.calls == s.calls && s'.ops == s.ops
    ensures Promising(s', q, op, now)
  {
    hide Found, OperationOf, Servable, MayName, SpendStore.ValidReference;
  }

  lemma TakenLeads(s: State, r: nat, q: Request)
    requires q.phase == Admitting(Reserving) && q.slot in s.store && !q.soft
    ensures Acts(s, r, q, Reserve(false, true)) == Some(Put(s, r, q.(phase := Admitting(Taken))))
  {
    hide Quiet, LookingUp, Entering, RecordsDurably, NotingOperation, Sent, Answered, CallReturns, CallSettles;
  }

  lemma FreeLeads(s: State, r: nat, q: Request)
    requires q.phase == Admitting(Reserving) && q.slot !in s.store
    ensures Acts(s, r, q, Reserve(false, true)) ==
      Some(Put(s, r, q.(phase := Owning(EnterInner), minted := true))
           .(store := Minted(s.store, q.slot, r), ever := s.ever + {q.slot}))
  {
    hide Quiet, LookingUp, Entering, RecordsDurably, NotingOperation, Sent, Answered, CallReturns, CallSettles;
  }

  lemma TakenPromise(s: State, q: Request, op: string, now: int)
    requires q.phase == Admitting(Reserving) && q.slot in s.store && Promising(s, q, op, now)
    ensures !q.soft && Promising(s, q.(phase := Admitting(Taken)), op, now)
  {
    hide Found, OperationOf, Servable, MayName, SpendStore.ValidReference, CacheOf, MayRecord;
  }

  lemma FreePromise(s: State, q: Request, op: string, now: int)
    requires q.phase == Admitting(Reserving) && q.slot !in s.store && Promising(s, q, op, now)
    ensures Promising(s, q.(minted := true), op, now)
  {
    hide Found, OperationOf, Servable, MayName, SpendStore.ValidReference, CacheOf, MayRecord;
  }

  lemma ReserveOn(s: State, r: nat, op: string, now: int)
    requires r in s.reqs && s.reqs[r].phase == Admitting(Reserving) && Promising(s, s.reqs[r], op, now)
    ensures GotOn(s, r, Acts(s, r, s.reqs[r], Reserve(false, true)), op, now)
  {
    hide Acts, Promising;
    var q := s.reqs[r];
    if q.slot in s.store {
      TakenPromise(s, q, op, now);
      TakenLeads(s, r, q);
      var q' := q.(phase := Admitting(Taken));
      SamePromise(s, Put(s, r, q'), q', op, now);
    } else {
      FreeLeads(s, r, q);
      FreePromise(s, q, op, now);
      var q' := q.(phase := Owning(EnterInner), minted := true);
      assert q'.(phase := Admitting(Reserving)) == q.(minted := true);
      var s' := Put(s, r, q').(store := Minted(s.store, q.slot, r), ever := s.ever + {q.slot});
      MintedPromise(s, s', q', op, now);
    }
  }

  lemma RecordOn(s: State, r: nat, op: string, now: int)
    requires r in s.reqs && Promising(s, s.reqs[r], op, now) && AfterRecord(s.reqs[r], true).Some?
    ensures GotOn(s, r, Acts(s, r, s.reqs[r], RecordOperation(false, true)), op, now)
  {
    hide Found, OperationOf, Servable, SpendStore.ValidReference;
  }

  lemma ProviderOn(s: State, r: nat, call: nat, op: string, now: int)
    requires r in s.reqs && s.reqs[r].phase.Executing? && Promising(s, s.reqs[r], op, now)
    requires s.reqs[r].phase.exec.Sending? || s.reqs[r].phase.exec.Submitting? || s.reqs[r].phase.exec.Noting?
    ensures GotOn(s, r, Acts(s, r, s.reqs[r], Forward(s.reqs[r].phase, call, op, now)), op, now)
  {
    hide Found, OperationOf, Servable, Recorded, SpendStore.ValidReference;
  }

  lemma ReleaseOn(s: State, r: nat, op: string, now: int)
    requires r in s.reqs && s.reqs[r].phase.Owning? && s.reqs[r].phase.own.Releasing?
    requires Promising(s, s.reqs[r], op, now)
    ensures GotOn(s, r, Acts(s, r, s.reqs[r], Release(false, true)), op, now)
  {
    hide Found, OperationOf, Servable;
  }

  lemma ReturnOn(s: State, r: nat, op: string, now: int)
    requires r in s.reqs && Promising(s, s.reqs[r], op, now) && CallReturns(s, r, s.reqs[r]).Some?
    ensures GotOn(s, r, Acts(s, r, s.reqs[r], Return), op, now)
  {
    var q := s.reqs[r];
    CallReturnsFacts(s, r, q);
    hide CallReturns, LookingWell, AdmittingWell, OwningWell, Quiet, LookingUp, Entering, Reserved, RecordsDurably;
    hide NotingOperation, Sent, Answered, CallSettles, Released;
  }

  lemma SettleOn(s: State, r: nat, op: string, now: int)
    requires r in s.reqs && Promising(s, s.reqs[r], op, now) && CallSettles(s, r, s.reqs[r], 1, now, now).Some?
    ensures GotOn(s, r, Acts(s, r, s.reqs[r], Settle(1, now, now)), op, now)
  {
    hide Settled, CacheOf, LookingWell, AdmittingWell, Quiet, LookingUp, Entering, Reserved, RecordsDurably;
    hide NotingOperation, Sent, Answered, CallReturns, Released, Keepable, Executable;
  }

  /** Every step keeps the promise. */
  lemma StepOn(states: seq<State>, steps: seq<Step>, r: nat, call: nat, op: string, now: int)
    requires Run(states, steps) && r in states[|steps|].reqs && Working(states[|steps|].reqs[r])
    requires call !in states[|steps|].calls && Promising(states[|steps|], states[|steps|].reqs[r], op, now)
    ensures var (s, q) := (states[|steps|], states[|steps|].reqs[r]);
      GotOn(s, r, Acts(s, r, q, Forward(q.phase, call, op, now)), op, now)
  {
    var s, q := states[|steps|], states[|steps|].reqs[r];
    Reachable(states, steps, |steps|);
    OwnersAlwaysSettle(states, steps, |steps|, r, 1, now, now);
    hide Run, Inv, GotOn, Acts, Promising, CallReturns, CallSettles;
    if TakesQuietStep(q.phase) { QuietOn(s, r, call, op, now); }
    else if EnterKey(q).Some? { EnterOn(s, r, call, op, now); }
    else if AfterRecord(q, true).Some? { RecordOn(s, r, op, now); }
    else if Ending(q).Some? { ReturnOn(s, r, op, now); }
    else if SettlingKey(q).Some? { SettleOn(s, r, op, now); }
    else {
      match q.phase {
        case Looking(_) => LookupOn(s, r, op, now);
        case Admitting(a) => if a.Taken? { LookupOn(s, r, op, now); } else { ReserveOn(s, r, op, now); }
        case Owning(_) => ReleaseOn(s, r, op, now);
        case _ => ProviderOn(s, r, call, op, now);
      }
    }
  }

  // ---- whole runs ----------------------------------------------------------------------------------

  /** Only request `r` took the steps from `k` on, and none of them failed. */
  predicate OnlyOwn(steps: seq<Step>, k: nat, r: nat) {
    forall i :: k <= i < |steps| ==> steps[i].Act? && steps[i].r == r && Unfailing(steps[i].action)
  }

  /** The run goes on with own, unfailing steps of request `r`, and ends with its success. */
  ghost predicate GoesOnToSuccess(states: seq<State>, steps: seq<Step>, states': seq<State>, steps': seq<Step>,
                                  r: nat)
  {
    Run(states', steps') && |states| == |steps| + 1 && states <= states' && steps <= steps' &&
    OnlyOwn(steps', |steps|, r) && r in states[|steps|].reqs && r in states'[|steps'|].reqs &&
    Succeeded(states'[|steps'|].reqs[r]) && states'[|steps'|].reqs[r].slot == states[|steps|].reqs[r].slot
  }

  lemma {:induction false} PromisingSucceeds(states: seq<State>, steps: seq<Step>, r: nat, op: string, now: int)
    returns (states': seq<State>, steps': seq<Step>)
    requires Run(states, steps) && r in states[|steps|].reqs
    requires Promising(states[|steps|], states[|steps|].reqs[r], op, now)
    ensures GoesOnToSuccess(states, steps, states', steps', r)
    decreases Rank(states[|steps|].reqs[r].phase)
  {
    RunLength(states, steps);
    var s, q := states[|steps|], states[|steps|].reqs[r];
    if q.phase.Finished? {
      ResultsAreOwn(states, steps, |steps|, r);
      hide Run;
      states', steps' := states, steps;
    } else {
      var call := UnusedNumber(s.calls.Keys);
      var action := Forward(q.phase, call, op, now);
      ForwardIsUnfailing(q.phase, call, op, now);
      hide Run, Acts, Rank, Unfailing, Promising, Forward;
      StepOn(states, steps, r, call, op, now);
      EveryActionProgresses(s, r, action);
      OneMoreStep(states, steps, Act(r, action));
      var more, done := states + [Next(s, Act(r, action)).value], steps + [Act(r, action)];
      states', steps' := PromisingSucceeds(more, done, r, op, now);
      assert steps'[|steps|] == done[|steps|];
    }
  }

  // ---- who succeeds ----------------------------------------------------------------------------------

  /** A fresh image on a free slot is executed; the provider names an operation it has not named before. */
  lemma FreshScanSucceeds(states: seq<State>, steps: seq<Step>, r: nat, op: string, now: int)
    returns (states': seq<State>, steps': seq<Step>)
    requires Run(states, steps) && r in states[|steps|].reqs
    requires var (s, q) := (states[|steps|], states[|steps|].reqs[r]);
      q.phase == Admitting(Start) && q.slot !in s.store && op !in s.ops && SpendStore.ValidReference(op) &&
      Absent(s, q.inst, OuterKey(q), now) && Absent(s, q.inst, InnerKey(q), now)
    ensures GoesOnToSuccess(states, steps, states', steps', r)
  {
    hide Run, Found;
    states', steps' := PromisingSucceeds(states, steps, r, op, now);
  }

  /** An attested duplicate of an unexpired reservation resumes its recorded operation. */
  lemma DuplicateSucceeds(states: seq<State>, steps: seq<Step>, r: nat, now: int)
    returns (states': seq<State>, steps': seq<Step>)
    requires Run(states, steps) && r in states[|steps|].reqs
    requires var (s, q) := (states[|steps|], states[|steps|].reqs[r]);
      q.phase == Admitting(Start) && !q.soft && Resumable(s, q.slot) &&
      Absent(s, q.inst, OuterKey(q), now) && !Cached(s, q.inst, InnerKey(q), now)
    ensures GoesOnToSuccess(states, steps, states', steps', r)
  {
    hide Run, Found;
    states', steps' := PromisingSucceeds(states, steps, r, "", now);
  }

  /** A request whose own key has a live result on its instance replays it, capped or not. */
  lemma ReplaySucceeds(states: seq<State>, steps: seq<Step>, r: nat, now: int)
    returns (states': seq<State>, steps': seq<Step>)
    requires Run(states, steps) && r in states[|steps|].reqs
    requires var (s, q) := (states[|steps|], states[|steps|].reqs[r]);
      (q.phase == Admitting(Start) || q.phase == Looking(CapStart)) && Cached(s, q.inst, OuterKey(q), now)
    ensures GoesOnToSuccess(states, steps, states', steps', r)
  {
    hide Run;
    states', steps' := PromisingSucceeds(states, steps, r, "", now);
  }

  /**
   The image's live result is shared with an identity that reserves it now, or reserved it before; what
   operation it can see it must be able to keep.
   */
  lemma SharedScanSucceeds(states: seq<State>, steps: seq<Step>, r: nat, now: int)
    returns (states': seq<State>, steps': seq<Step>)
    requires Run(states, steps) && r in states[|steps|].reqs
    requires var (s, q) := (states[|steps|], states[|steps|].reqs[r]);
      q.phase == Admitting(Start) && Absent(s, q.inst, OuterKey(q), now) && Cached(s, q.inst, InnerKey(q), now) &&
      if q.slot in s.store then !q.soft && Keepable(s, q, now)
      else q.soft || Seen(s, q, now) == "" || SpendStore.ValidReference(Seen(s, q, now))
    ensures GoesOnToSuccess(states, steps, states', steps', r)
  {
    hide Run;
    states', steps' := PromisingSucceeds(states, steps, r, "", now);
  }

  /** A joiner of a call that ended well takes its result. */
  lemma JoinerSucceeds(states: seq<State>, steps: seq<Step>, r: nat, c: nat, now: int)
    returns (states': seq<State>, steps': seq<Step>)
    requires Run(states, steps) && r in states[|steps|].reqs
    requires var (s, q) := (states[|steps|], states[|steps|].reqs[r]);
      WaitsFor(q.phase) == Some(c) && EndedWell(s, c) && (q.phase.OuterWait? || q.soft || Keepable(s, q, now))
    ensures GoesOnToSuccess(states, steps, states', steps', r)
  {
    hide Run;
    states', steps' := PromisingSucceeds(states, steps, r, "", now);
  }

  /** A rate-capped request recovers the image's live result for its own reservation, or its recorded operation. */
  lemma CappedScanSucceeds(states: seq<State>, steps: seq<Step>, r: nat, now: int)
    returns (states': seq<State>, steps': seq<Step>)
    requires Run(states, steps) && r in states[|steps|].reqs
    requires var (s, q) := (states[|steps|], states[|steps|].reqs[r]);
      q.phase == Looking(CapStart) && Absent(s, q.inst, OuterKey(q), now) &&
      if Cached(s, q.inst, InnerKey(q), now) then q.slot in s.store else Resumable(s, q.slot)
    ensures GoesOnToSuccess(states, steps, states', steps', r)
  {
    hide Run, Found;
    states', steps' := PromisingSucceeds(states, steps, r, "", now);
  }

  /** From nothing at all: the first request to arrive can succeed. */
  lemma FirstScanSucceeds(inst: nat, slot: Slot, soft: bool, op: string) returns (states: seq<State>, steps: seq<Step>)
    requires SpendStore.ValidReference(op)
    ensures Run(states, steps) && |steps| > 0 && steps[0] == Arrive(0, inst, slot, soft, false) && OnlyOwn(steps, 1, 0)
    ensures 0 in states[|steps|].reqs && Succeeded(states[|steps|].reqs[0]) && states[|steps|].reqs[0].slot == slot
  {
    var s := State(map[], map[], map[], map[], map[], {});
    var first := Arrive(0, inst, slot, soft, false);
    assert s.store.Keys == {};
    states, steps := FreshScanSucceeds([s, Next(s, first).value], [first], 0, op, 0);
  }
}
