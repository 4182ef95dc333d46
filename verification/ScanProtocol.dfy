/**
 The scan endpoint as a step system: requests of any identities on any instances, each instance with
 its own single-flight cache, one durable reservation store and one billed provider
 (cmd/ocr/main.go:396-583, internal/azure/ocr.go:155-310). A step is one mutex section, one committed
 transaction or one answer of the provider; an instance may crash between any two of them.
 */
module ScanProtocol {
  import opened Wrappers
  import opened Coalescer
  import SpendStore

  datatype Slot = Slot(identity: string, image: string)

  /** The two coalescing keys; see KeysAreDistinct. */
  datatype Key = Outer(slot: Slot) | Inner(image: string)

  function OuterKeyString(identity: string, hash: string): string { "identity:" + identity + ":" + hash }

  function InnerKeyString(hash: string): string { "image:" + hash }

  /** Hashes are fixed-length hex digests: distinct keys are distinct strings. */
  lemma KeysAreDistinct(a: string, h: string, b: string, k: string)
    requires |h| == |k|
    ensures OuterKeyString(a, h) == OuterKeyString(b, k) ==> a == b && h == k
    ensures InnerKeyString(h) == InnerKeyString(k) ==> h == k
    ensures OuterKeyString(a, h) != InnerKeyString(k)
  {
    var s, t := OuterKeyString(a, h), OuterKeyString(b, k);
    if s == t {
      assert a == s[9..][..|a|] && b == t[9..][..|b|];
      assert h == s[|a| + 10..] && k == t[|b| + 10..];
    }
    assert h == InnerKeyString(h)[6..] && k == InnerKeyString(k)[6..];
    assert s[1] == 'd' && InnerKeyString(k)[1] == 'm';
  }

  /** A result is named by the image it is the analysis of. */
  type Answer = Outcome<string>

  datatype Submission = Unsent | InDoubt | Rejected | Accepted(op: string)

  /** `holder` is the request that minted it; None is a reservation from before the run. */
  datatype Reservation = Reservation(holder: Option<nat>, expired: bool, op: string)

  datatype CallInfo = CallInfo(key: Key, owner: nat, outcome: Option<Answer>)

  /** A capped attested request looks for work that already exists. */
  datatype Capped = CapStart | CapLookup | CapHas(result: string) | CapRead | CapEnter(op: string)

  /** Admission under the identity's own key, while the slot is not known to be ours. */
  datatype Admit =
    | Start | Reserving | Taken | Replaying(result: string) | ReplayRecording(result: string, op: string) | TakenRead
    | Resuming(op: string)

  /** The slot is ours: share one provider execution per image. */
  datatype Own =
    | EnterInner | InnerWait(call: nat) | AfterInner(owner: bool, outcome: Answer)
    | JoinRecording(outcome: Answer, op: string)
    | Releasing(outcome: Answer)

  /** The provider execution itself. */
  datatype Exec =
    | Sending | Submitting | Recording(op: string) | Noting(op: string) | Polling(op: string)
    | InnerReturning(outcome: Answer) | InnerSettling(outcome: Answer)

  datatype Phase =
    | Looking(capped: Capped) | OuterWait(call: nat) | Admitting(admit: Admit) | Owning(own: Own)
    | Executing(exec: Exec)
    | Returning(outcome: Answer) | Settling(outcome: Answer) | Finished(outcome: Answer) | Crashed

  datatype Request = Request(inst: nat, slot: Slot, soft: bool, capped: bool, phase: Phase,
                             outerCall: Option<nat>, innerCall: Option<nat>,
                             minted: bool, released: bool, lapsed: bool, sub: Submission)

  /** `ops` are the operations the provider accepted; `ever` the slots that were reserved at some time. */
  datatype State = State(reqs: map<nat, Request>, caches: map<nat, Cache<Key, nat, string>>, calls: map<nat, CallInfo>,
                         store: map<Slot, Reservation>, ops: map<string, string>, ever: set<Slot>)

  datatype Response = Refusal | Unclear | Acceptance(op: string)

  /** One step of one request. */
  datatype Action =
    | Recover(at: int)
    | Wake
    | Abandon
    | Lookup(at: int)
    | HasReservation(fails: bool)
    | ReadOperation(fails: bool)
    | EnterDo(call: nat, at: int)
    | Poll(succeeds: bool)
    | Reserve(fails: bool, applied: bool)
    | CheckOperation(at: int)
    | RecordOperation(fails: bool, applied: bool)
    | NoteOperation
    | Send
    | Respond(response: Response)
    | Return
    | Settle(ttl: int, at: int, later: int)
    | Release(fails: bool, applied: bool)

  datatype Step =
    | Arrive(r: nat, inst: nat, slot: Slot, soft: bool, capped: bool)
    | Act(r: nat, action: Action)
    | Crash(inst: nat)
    | Lapse(slot: Slot)
    | Reap(slot: Slot)

  const NOT_SUBMITTED := "azure: analysis not submitted"
  const FAILED := "failed"

  function Success(image: string): Answer { Outcome(Some(image), None) }

  function Failure(err: string): Answer { Outcome(None, Some(err)) }

  function OuterKey(q: Request): Key { Outer(q.slot) }

  function InnerKey(q: Request): Key { Inner(q.slot.image) }

  function ImageOf(key: Key): string { if key.Outer? then key.slot.image else key.image }

  function CacheOf(s: State, inst: nat): Cache<Key, nat, string> {
    if inst in s.caches then s.caches[inst] else Cache(map[], map[])
  }

  predicate Working(q: Request) { !q.phase.Finished? && !q.phase.Crashed? }

  function Put(s: State, r: nat, q: Request): State { s.(reqs := s.reqs[r := q]) }

  function PutCache(s: State, r: nat, q: Request, cache: Cache<Key, nat, string>): State {
    s.(reqs := s.reqs[r := q], caches := s.caches[q.inst := cache])
  }

  // ---- steps that change one request only -------------------------------------------------

  function Recovering(s: State, q: Request, at: int): Phase {
    match Found(CacheOf(s, q.inst), OuterKey(q), at)
    case Replay(v) => Finished(Success(v))
    case Join(c) => OuterWait(c)
    case Nothing => Looking(CapLookup)
  }

  /** A waiter takes the outcome its call ended with. */
  function Waking(s: State, q: Request): Option<Phase> {
    match q.phase
    case OuterWait(c) =>
      if c in s.calls && s.calls[c].outcome.Some? then Some(Finished(s.calls[c].outcome.value)) else None
    case Owning(InnerWait(c)) =>
      if c in s.calls && s.calls[c].outcome.Some? then Some(Owning(AfterInner(false, s.calls[c].outcome.value)))
      else None
    case _ => None
  }

  function Abandoning(q: Request): Option<Phase> {
    match q.phase
    case OuterWait(_) => Some(Finished(Failure(FAILED)))
    case Owning(InnerWait(_)) => Some(Owning(AfterInner(false, Failure(FAILED))))
    case _ => None
  }

  /** The durable operation of a slot: unreadable once expired, "" when nothing is recorded. */
  function DurableOperation(s: State, slot: Slot, fails: bool): Option<string> {
    if slot !in s.store then (if fails then None else Some(""))
    else if fails || s.store[slot].expired then None
    else Some(s.store[slot].op)
  }

  function Reading(s: State, q: Request, fails: bool): Option<Phase> {
    var op := DurableOperation(s, q.slot, fails);
    match q.phase
    case Looking(CapRead) =>
      Some(if op.Some? && op.value != "" then Looking(CapEnter(op.value)) else Finished(Failure(FAILED)))
    case Admitting(TakenRead) =>
      Some(if op.Some? && op.value != "" then Admitting(Resuming(op.value)) else Returning(Failure(FAILED)))
    case _ => None
  }

  function PollAnswer(s: State, op: string, succeeds: bool): Answer {
    if succeeds && op in s.ops then Success(s.ops[op]) else Failure(FAILED)
  }

  function Polled(s: State, q: Request, succeeds: bool): Option<Phase> {
    match q.phase
    case Admitting(Resuming(op)) => Some(Returning(PollAnswer(s, op, succeeds)))
    case Executing(Polling(op)) => Some(Executing(InnerReturning(PollAnswer(s, op, succeeds))))
    case _ => None
  }

  /** A joiner keeps the owner's accepted operation in its own reservation, if it can still see it. */
  function Checking(s: State, q: Request, at: int): Option<Phase> {
    var op := OperationOf(CacheOf(s, q.inst), InnerKey(q), at);
    match q.phase
    case Admitting(Replaying(v)) => Some(if op != "" then Admitting(ReplayRecording(v, op)) else Returning(Success(v)))
    case Owning(AfterInner(owner, o)) =>
      Some(Owning(if !owner && !q.soft && op != "" then JoinRecording(o, op) else Releasing(o)))
    case _ => None
  }

  function Confirming(s: State, q: Request, fails: bool): Option<Phase> {
    match q.phase
    case Looking(CapHas(v)) => Some(if !fails && q.slot in s.store then Finished(Success(v)) else Looking(CapRead))
    case _ => None
  }

  function Quiet(s: State, q: Request, action: Action): Option<Phase> {
    match action
    case Recover(at) => if q.phase == Looking(CapStart) then Some(Recovering(s, q, at)) else None
    case Wake => Waking(s, q)
    case Abandon => Abandoning(q)
    case HasReservation(fails) => Confirming(s, q, fails)
    case ReadOperation(fails) => Reading(s, q, fails)
    case Poll(succeeds) => Polled(s, q, succeeds)
    case CheckOperation(at) => Checking(s, q, at)
    case _ => None
  }

  // ---- the instance cache -------------------------------------------------------------------

  function AfterLookup(q: Request, cached: Option<string>): Option<Phase> {
    match q.phase
    case Looking(CapLookup) => Some(Looking(if cached.Some? then CapHas(cached.value) else CapRead))
    case Admitting(Taken) => Some(Admitting(if cached.Some? then Replaying(cached.value) else TakenRead))
    case _ => None
  }

  /** A live result of the image; an expired one is dropped. */
  function LookingUp(s: State, r: nat, q: Request, at: int): Option<State> {
    var cache := CacheOf(s, q.inst);
    var key := InnerKey(q);
    var cached := if key in cache.done && Servable(cache.done[key], at) then cache.done[key].result else None;
    match AfterLookup(q, cached)
    case None => None
    case Some(phase) => Some(PutCache(s, r, q.(phase := phase), LookedUp(cache, key, at)))
  }

  function EnterKey(q: Request): Option<Key> {
    match q.phase
    case Looking(CapEnter(_)) => Some(OuterKey(q))
    case Admitting(Start) => Some(OuterKey(q))
    case Owning(EnterInner) => Some(InnerKey(q))
    case _ => None
  }

  /** What Do leads to: a replayed result, somebody else's call, or our own. */
  function Proceeding(q: Request, found: Entered<nat, string>, call: nat): Request {
    match found
    case Replay(v) =>
      q.(phase := if q.phase.Owning? then Owning(AfterInner(false, Success(v))) else Finished(Success(v)))
    case Join(c) => q.(phase := if q.phase.Owning? then Owning(InnerWait(c)) else OuterWait(c))
    case Nothing =>
      match q.phase
      case Owning(_) => q.(phase := Executing(Sending), innerCall := Some(call))
      case Looking(CapEnter(op)) => q.(phase := Admitting(Resuming(op)), outerCall := Some(call))
      case _ => q.(phase := Admitting(Reserving), outerCall := Some(call))
  }

  function Entering(s: State, r: nat, q: Request, call: nat, at: int): Option<State> {
    match EnterKey(q)
    case None => None
    case Some(key) =>
      if call in s.calls then None else
        var cache := CacheOf(s, q.inst);
        var found := Found(cache, key, at);
        var q' := Proceeding(q, found, call);
        if found == Nothing
        then Some(PutCache(s, r, q', Started(Dropped(cache, key, at), key, call))
                  .(calls := s.calls[call := CallInfo(key, r, None)]))
        else Some(PutCache(s, r, q', Dropped(cache, key, at)))
  }

  function NotingOperation(s: State, r: nat, q: Request): Option<State> {
    match q.phase
    case Executing(Noting(op)) =>
      Some(PutCache(s, r, q.(phase := Executing(Polling(op))), Recorded(CacheOf(s, q.inst), InnerKey(q), op)))
    case _ => None
  }

  function HandedOver(calls: map<nat, CallInfo>, call: nat, o: Answer): map<nat, CallInfo>
    requires call in calls
  {
    calls[call := calls[call].(outcome := Some(o))]
  }

  /** The shared function returned: waiters may wake before the cache is settled. */
  function CallReturns(s: State, r: nat, q: Request): Option<State> {
    match q.phase
    case Executing(InnerReturning(o)) =>
      if q.innerCall.Some? && q.innerCall.value in s.calls
      then Some(Put(s, r, q.(phase := Executing(InnerSettling(o))))
                .(calls := HandedOver(s.calls, q.innerCall.value, o)))
      else None
    case Returning(o) =>
      if q.outerCall.Some? && q.outerCall.value in s.calls
      then Some(Put(s, r, q.(phase := Settling(o))).(calls := HandedOver(s.calls, q.outerCall.value, o)))
      else None
    case _ => None
  }

  /** The key of the call a request is about to settle, the outcome, and the request afterwards. */
  function Leaving(q: Request): Option<(Key, Answer, Request)> {
    match q.phase
    case Executing(InnerSettling(o)) =>
      Some((InnerKey(q), o, q.(phase := Owning(AfterInner(true, o)), innerCall := None)))
    case Settling(o) => Some((OuterKey(q), o, q.(phase := Finished(o), outerCall := None)))
    case _ => None
  }

  function CallSettles(s: State, r: nat, q: Request, ttl: int, at: int, later: int): Option<State> {
    match Leaving(q)
    case None => None
    case Some((key, o, q')) =>
      var cache := CacheOf(s, q.inst);
      if key in cache.inFlight then Some(PutCache(s, r, q', Settled(cache, key, o, ttl, at, later))) else None
  }

  // ---- the durable store and the provider ------------------------------------------------------

  /** Where a reserve leads, and whether it minted; a call may fail after its transaction was applied, or without. */
  function AfterReserve(q: Request, free: bool, fails: bool, applied: bool): Option<(Phase, bool)> {
    if q.phase != Admitting(Reserving) then None
    else if free && (applied || !fails)
    then Some((if fails then Returning(Failure(FAILED)) else Owning(EnterInner), true))
    else if fails || q.soft then Some((Returning(Failure(FAILED)), false))
    else Some((Admitting(Taken), false))
  }

  function Minted(store: map<Slot, Reservation>, slot: Slot, r: nat): map<Slot, Reservation> {
    store[slot := Reservation(Some(r), false, "")]
  }

  function Reserved(s: State, r: nat, q: Request, fails: bool, applied: bool): Option<State> {
    match AfterReserve(q, q.slot !in s.store, fails, applied)
    case None => None
    case Some((phase, minted)) =>
      var s' := Put(s, r, q.(phase := phase, minted := q.minted || minted));
      Some(if minted then s'.(store := Minted(s.store, q.slot, r), ever := s.ever + {q.slot}) else s')
  }

  predicate MayRecord(s: State, slot: Slot, op: string) {
    SpendStore.ValidReference(op) && slot in s.store && !s.store[slot].expired &&
    (s.store[slot].op == "" || s.store[slot].op == op)
  }

  /** Where a durable record leads, and which operation it writes. */
  function AfterRecord(q: Request, recorded: bool): Option<(Phase, string)> {
    match q.phase
    case Admitting(ReplayRecording(v, op)) => Some((Returning(if recorded then Success(v) else Failure(FAILED)), op))
    case Executing(Recording(op)) =>
      Some((Executing(if recorded then Noting(op) else InnerReturning(Failure(FAILED))), op))
    case Owning(JoinRecording(o, op)) =>
      Some((if recorded then Owning(Releasing(o)) else Returning(Failure(FAILED)), op))
    case _ => None
  }

  function RecordsDurably(s: State, r: nat, q: Request, fails: bool, applied: bool): Option<State> {
    match AfterRecord(q, true)
    case None => None
    case Some(next) =>
      var may := MayRecord(s, q.slot, next.1);
      var s' := if may && (applied || !fails) then s.(store := s.store[q.slot := s.store[q.slot].(op := next.1)])
                else s;
      Some(Put(s', r, q.(phase := AfterRecord(q, may && !fails).value.0)))
  }

  /** Only a proven rejection releases. */
  predicate Releases(o: Answer, fails: bool, applied: bool) { o.err == Some(NOT_SUBMITTED) && (applied || !fails) }

  function Without(store: map<Slot, Reservation>, slot: Slot): map<Slot, Reservation> { store - {slot} }

  /** The document goes, whoever wrote it. */
  function Released(s: State, r: nat, q: Request, fails: bool, applied: bool): Option<State> {
    match q.phase
    case Owning(Releasing(o)) =>
      var s' := Put(s, r, q.(phase := Returning(o), released := q.released || Releases(o, fails, applied)));
      Some(if Releases(o, fails, applied) then s'.(store := Without(s.store, q.slot)) else s')
    case _ => None
  }

  /** From the moment the image is on the wire it may be billed, until the provider says otherwise. */
  function Sent(s: State, r: nat, q: Request): Option<State> {
    if q.phase == Executing(Sending) then Some(Put(s, r, q.(phase := Executing(Submitting), sub := InDoubt))) else None
  }

  /** An operation is named for one image only. */
  predicate MayName(ops: map<string, string>, op: string, image: string) {
    op != "" && (op in ops ==> ops[op] == image)
  }

  function AfterResponse(q: Request, response: Response, ops: map<string, string>): Option<(Phase, Submission)> {
    var refused := Executing(InnerReturning(Failure(NOT_SUBMITTED)));
    if q.phase == Executing(Sending) && response.Refusal? then Some((refused, q.sub))
    else if q.phase != Executing(Submitting) then None
    else
      match response
      case Refusal => Some((refused, Rejected))
      case Unclear => Some((Executing(InnerReturning(Failure(FAILED))), q.sub))
      case Acceptance(op) =>
        if MayName(ops, op, q.slot.image)
        then Some((Executing(if q.soft then Polling(op) else Recording(op)), Accepted(op))) else None
  }

  function Answered(s: State, r: nat, q: Request, response: Response): Option<State> {
    match AfterResponse(q, response, s.ops)
    case None => None
    case Some((phase, sub)) =>
      Some(Put(s, r, q.(phase := phase, sub := sub))
           .(ops := if response.Acceptance? then s.ops[response.op := q.slot.image] else s.ops))
  }

  // ---- the environment ---------------------------------------------------------------------------

  function Arrived(s: State, r: nat, inst: nat, slot: Slot, soft: bool, capped: bool): Option<State> {
    if r in s.reqs then None
    else Some(Put(s, r, Request(inst, slot, soft, capped,
                                if !capped then Admitting(Start) else if soft then Finished(Failure(FAILED))
                                else Looking(CapStart),
                                None, None, false, false, false, Unsent)))
  }

  function Died(q: Request): Request {
    if Working(q) then q.(phase := Crashed, outerCall := None, innerCall := None) else q
  }

  /** The cache and every request of the instance are gone. */
  function Crashing(s: State, inst: nat): State {
    s.(caches := s.caches - {inst},
       reqs := map r | r in s.reqs :: if s.reqs[r].inst == inst then Died(s.reqs[r]) else s.reqs[r])
  }

  /** A reservation outlives the request that minted it: it expires only when that one has left. */
  predicate MayLapse(s: State, slot: Slot) {
    slot in s.store &&
    (s.store[slot].holder.Some? ==>
       s.store[slot].holder.value in s.reqs && !Working(s.reqs[s.store[slot].holder.value]))
  }

  function Lapsed(s: State, slot: Slot): Option<State> {
    if !MayLapse(s, slot) then None else
      var reqs := match s.store[slot].holder
                  case None => s.reqs
                  case Some(r) => s.reqs[r := s.reqs[r].(lapsed := true)];
      Some(s.(store := s.store[slot := s.store[slot].(expired := true)], reqs := reqs))
  }

  function Reaped(s: State, slot: Slot): Option<State> {
    if slot in s.store && s.store[slot].expired then Some(s.(store := s.store - {slot})) else None
  }

  function Acts(s: State, r: nat, q: Request, action: Action): Option<State> {
    match action
    case Lookup(at) => LookingUp(s, r, q, at)
    case EnterDo(call, at) => Entering(s, r, q, call, at)
    case Reserve(fails, applied) => Reserved(s, r, q, fails, applied)
    case RecordOperation(fails, applied) => RecordsDurably(s, r, q, fails, applied)
    case NoteOperation => NotingOperation(s, r, q)
    case Send => Sent(s, r, q)
    case Respond(response) => Answered(s, r, q, response)
    case Return => CallReturns(s, r, q)
    case Settle(ttl, at, later) => CallSettles(s, r, q, ttl, at, later)
    case Release(fails, applied) => Released(s, r, q, fails, applied)
    case _ =>
      var phase := Quiet(s, q, action);
      if phase == None then None else Some(Put(s, r, q.(phase := phase.value)))
  }

  /** The state after a step, or None when the step is not possible. */
  function Next(s: State, step: Step): Option<State> {
    match step
    case Arrive(r, inst, slot, soft, capped) => Arrived(s, r, inst, slot, soft, capped)
    case Act(r, action) => if r in s.reqs then Acts(s, r, s.reqs[r], action) else None
    case Crash(inst) => Some(Crashing(s, inst))
    case Lapse(slot) => Lapsed(s, slot)
    case Reap(slot) => Reaped(s, slot)
  }
}
