/**
 The store steps of the scan protocol are the transactions of the durable store: one record per slot
 stands for a whole group of alias documents, in every run, with expiry and reaping
 (internal/firestore/store.go:225-346, cmd/ocr/spend_gate.go:80-106).
 */
module ScanStore {
  import opened Wrappers
  import opened SpendStore
  import P = ScanProtocol
  import ScanSafety

  type Store = map<P.Slot, P.Reservation>

  ghost function Documents(docs: Docs, slot: P.Slot): AliasGroup { GroupDocs(docs, slot.identity, slot.image) }

  /** A group that no read trusts: a document has expired or is malformed, or two name different operations. */
  ghost predicate Unreadable(g: AliasGroup, now: int) { !AllReadable(g, now) || !exists op :: Designates(g, op) }

  /** The record of a slot says what its documents say; one that a request minted has the canonical document only. */
  ghost predicate Mirrors(docs: Docs, now: int, store: Store, slot: P.Slot) {
    var g := Documents(docs, slot);
    (slot in store <==> g != map[]) &&
    (slot in store && !store[slot].expired ==> AllReadable(g, now) && Designates(g, store[slot].op)) &&
    (slot in store && store[slot].expired ==> Unreadable(g, now)) &&
    (slot in store && store[slot].holder.Some? ==> g.Keys == {slot.identity})
  }

  // ---- what the store answers -----------------------------------------------------------------------

  lemma DesignatesOne(g: AliasGroup, op: string, op': string)
    requires g != map[] && Designates(g, op) && Designates(g, op') && forall a :: a in g ==> WellFormed(g[a].operation)
    ensures op == op'
  {
    if a :| a in g && g[a].operation.Text? {
      assert op == g[a].operation.ref == op';
    }
  }

  /** A read gives the record's operation, and nothing when the record has expired. */
  lemma ReadMirrors(docs: Docs, now: int, s: P.State, slot: P.Slot, r: OpResult)
    requires Mirrors(docs, now, s.store, slot)
    ensures ReadsAs(Documents(docs, slot), now, r) <==>
      r == match P.DurableOperation(s, slot, false) case None => Refused case Some(op) => Accepted(op)
  {
    hide GroupDocs;
    var g := Documents(docs, slot);
    if slot in s.store && !s.store[slot].expired && ReadsAs(g, now, r) && r.Accepted? {
      DesignatesOne(g, r.operation, s.store[slot].op);
    }
  }

  lemma CarriedIsDesignated(g: AliasGroup, op: string)
    requires Carries(g, op) && op != "" && forall a :: a in g ==> WellFormed(g[a].operation)
    ensures Designates(g, op) || Designates(g, "")
  {
    if a :| a in g && g[a].operation.Text? {
      assert g[a].operation.ref == op;
    }
  }

  /** A record is accepted by the group exactly when the slot's record admits it. */
  lemma RecordMirrors(docs: Docs, now: int, s: P.State, slot: P.Slot, op: string)
    requires Mirrors(docs, now, s.store, slot)
    ensures Records(docs, slot.identity, slot.image, op, now) <==> P.MayRecord(s, slot, op)
  {
    hide GroupDocs;
    var g := Documents(docs, slot);
    if ValidReference(op) && slot in s.store && AllReadable(g, now) {
      if Carries(g, op) { CarriedIsDesignated(g, op); }
      if !s.store[slot].expired && Carries(g, op) && s.store[slot].op != "" {
        if Designates(g, op) { DesignatesOne(g, op, s.store[slot].op); }
      }
    }
  }

  lemma RecordedMirrors(docs: Docs, now: int, s: P.State, slot: P.Slot, op: string)
    requires Mirrors(docs, now, s.store, slot) && P.MayRecord(s, slot, op)
    ensures var docs' := RecordDocs(docs, slot.identity, slot.image, op);
      Mirrors(docs', now, s.store[slot := s.store[slot].(op := op)], slot)
  {
    hide IdentityGroup;
    var g, docs' := Documents(docs, slot), RecordDocs(docs, slot.identity, slot.image, op);
    var g' := Documents(docs', slot);
    assert g'.Keys == g.Keys;
    forall a | a in g' ensures g'[a] == g[a].(operation := Text(op)) {}
    var a :| a in g;
    assert a in g';
  }

  /** The first document of a group is the whole group. */
  lemma MintedGroup(docs: Docs, device: string, hash: string, d: Reservation)
    requires GroupDocs(docs, device, hash) == map[] && IsCanonical(device)
    ensures GroupDocs(docs[DocId(device, hash) := d], device, hash) == map[device := d]
  {
    hide IdentityGroup, IsCanonical;
    CanonicalIsOwnAlias(device);
    forall a | a in IdentityGroup(device) ensures DocId(a, hash) !in docs {
      assert a in IdentityGroup(device) && DocId(a, hash) in docs ==> a in GroupDocs(docs, device, hash);
    }
  }

  /** Minting succeeds exactly on a slot without a record, and leaves a live record without an operation. */
  lemma ReservedMirrors(docs: Docs, now: int, ttl: int, store: Store, slot: P.Slot, holder: nat, docs': Docs,
                        answer: Answer)
    requires Mirrors(docs, now, store, slot) && IsCanonical(slot.identity) && ttl > 0
    requires Serves(docs, Call.Reserve(slot.identity, slot.image, ttl), now, docs', answer)
    ensures answer == Flag(slot !in store)
    ensures slot !in store ==>
      Mirrors(docs', now, P.Minted(store, slot, holder), slot) &&
      Documents(docs', slot) == map[slot.identity := Reservation(Some(now + ttl), NoOperation)]
    ensures slot in store ==> docs' == docs
  {
    hide GroupDocs, IsCanonical;
    if slot !in store {
      MintedGroup(docs, slot.identity, slot.image, Reservation(Some(now + ttl), NoOperation));
      assert slot.identity in Documents(docs', slot);
    }
  }

  /** Releasing a reservation that a request minted empties its group. */
  lemma ReleasedMirrors(docs: Docs, now: int, store: Store, slot: P.Slot, docs': Docs, answer: Answer)
    requires Mirrors(docs, now, store, slot) && (slot in store ==> store[slot].holder.Some?)
    requires Serves(docs, Call.Release(slot.identity, slot.image), now, docs', answer)
    ensures Mirrors(docs', now, P.Without(store, slot), slot)
  {
    hide IdentityGroup;
    assert forall a :: a in Documents(docs', slot) ==> a in Documents(docs, slot) && a != slot.identity;
  }

  /** A call on one slot leaves every other canonical slot's group alone. */
  lemma OthersMirror(docs: Docs, call: Call, now: int, docs': Docs, answer: Answer, store: Store, slot: P.Slot)
    requires Serves(docs, call, now, docs', answer) && IsCanonical(slot.identity) && IsCanonical(call.device)
    requires call.device != slot.identity || call.hash != slot.image
    ensures Documents(docs', slot) == Documents(docs, slot)
    ensures Mirrors(docs, now, store, slot) ==> Mirrors(docs', now, store, slot)
  {
    hide GroupDocs, Serves, IsCanonical;
    OtherSlotsUntouched(docs, call, now, docs', answer, slot.identity, slot.image);
  }

  // ---- the store's side of a step -------------------------------------------------------------------

  /** The transaction a step of the protocol carries out, if any; a failed call may have had none. */
  function StoreCall(s: P.State, step: P.Step, ttl: int): Option<Call> {
    if !step.Act? || step.r !in s.reqs then None else CallOf(s.reqs[step.r], step.action, ttl)
  }

  function CallOf(q: P.Request, action: P.Action, ttl: int): Option<Call> {
    var (device, hash) := (q.slot.identity, q.slot.image);
    match action
    case Reserve(fails, applied) => if applied || !fails then Some(Call.Reserve(device, hash, ttl)) else None
    case HasReservation(fails) => if fails then None else Some(Call.Has(device, hash))
    case ReadOperation(fails) => if fails then None else Some(Call.Get(device, hash))
    case RecordOperation(fails, applied) =>
      if (applied || !fails) && P.AfterRecord(q, true).Some?
      then Some(Call.Record(device, hash, P.AfterRecord(q, true).value.1)) else None
    case Release(fails, applied) =>
      if q.phase.Owning? && q.phase.own.Releasing? && P.Releases(q.phase.own.outcome, fails, applied)
      then Some(Call.Release(device, hash)) else None
    case _ => None
  }

  function SlotOf(call: Call): P.Slot { P.Slot(call.device, call.hash) }

  /** The answer the protocol works with. */
  function Heard(s: P.State, call: Call): Answer {
    var slot := SlotOf(call);
    match call
    case Reserve(_, _, _) => Flag(slot !in s.store)
    case Has(_, _) => Flag(slot in s.store)
    case Record(_, _, op) => Operation(if P.MayRecord(s, slot, op) then Accepted(op) else Refused)
    case Get(_, _) => Operation(match P.DurableOperation(s, slot, false)
    case None => Refused case Some(op) => Accepted(op))
    case Release(_, _) => Done
  }

  /** The records after the transaction of request `r`. */
  function StoreAfter(s: P.State, call: Call, r: nat): Store {
    var slot := SlotOf(call);
    match call
    case Reserve(_, _, _) => if slot in s.store then s.store else P.Minted(s.store, slot, r)
    case Record(_, _, op) => if P.MayRecord(s, slot, op) then s.store[slot := s.store[slot].(op := op)] else s.store
    case Release(_, _) => P.Without(s.store, slot)
    case _ => s.store
  }

  function StoreNext(s: P.State, step: P.Step, ttl: int): Store {
    match StoreCall(s, step, ttl)
    case Some(call) => StoreAfter(s, call, step.r)
    case None =>
      match step
      case Lapse(slot) => if slot in s.store then s.store[slot := s.store[slot].(expired := true)] else s.store
      case Reap(slot) => P.Without(s.store, slot)
      case _ => s.store
  }

  lemma ReservedFollows(s: P.State, r: nat, fails: bool, applied: bool, ttl: int)
    requires r in s.reqs && P.Reserved(s, r, s.reqs[r], fails, applied).Some?
    ensures P.Reserved(s, r, s.reqs[r], fails, applied).value.store ==
      StoreNext(s, P.Act(r, P.Reserve(fails, applied)), ttl)
  {
    hide P.Minted;
  }

  lemma RecordsFollow(s: P.State, r: nat, fails: bool, applied: bool, ttl: int)
    requires r in s.reqs && P.RecordsDurably(s, r, s.reqs[r], fails, applied).Some?
    ensures P.RecordsDurably(s, r, s.reqs[r], fails, applied).value.store ==
      StoreNext(s, P.Act(r, P.RecordOperation(fails, applied)), ttl)
  {
    hide P.AfterRecord, P.MayRecord;
  }

  lemma ReleasedFollows(s: P.State, r: nat, fails: bool, applied: bool, ttl: int)
    requires r in s.reqs && P.Released(s, r, s.reqs[r], fails, applied).Some?
    ensures P.Released(s, r, s.reqs[r], fails, applied).value.store ==
      StoreNext(s, P.Act(r, P.Release(fails, applied)), ttl)
  {
    hide P.Releases, P.Without;
  }

  /** The other actions leave the records alone. */
  lemma OthersFollow(s: P.State, r: nat, action: P.Action, ttl: int)
    requires r in s.reqs && P.Acts(s, r, s.reqs[r], action).Some?
    requires !action.Reserve? && !action.RecordOperation? && !action.Release?
    ensures P.Acts(s, r, s.reqs[r], action).value.store == s.store == StoreNext(s, P.Act(r, action), ttl)
  {
    hide P.Quiet, P.CacheOf, P.EnterKey, P.Proceeding;
  }

  /** A step changes the records exactly as its transaction says. */
  lemma StoreFollows(s: P.State, step: P.Step, ttl: int)
    requires P.Next(s, step).Some?
    ensures P.Next(s, step).value.store == StoreNext(s, step, ttl)
  {
    hide P.Reserved, P.RecordsDurably, P.Released;
    if step.Act? {
      hide StoreNext;
      match step.action {
        case Reserve(fails, applied) => ReservedFollows(s, step.r, fails, applied, ttl);
        case RecordOperation(fails, applied) => RecordsFollow(s, step.r, fails, applied, ttl);
        case Release(fails, applied) => ReleasedFollows(s, step.r, fails, applied, ttl);
        case _ => OthersFollow(s, step.r, step.action, ttl);
      }
    }
    hide P.Acts;
  }

  // ---- one transaction ------------------------------------------------------------------------------

  /** Every slot of a canonical identity is mirrored. */
  ghost predicate AllMirror(docs: Docs, now: int, store: Store) {
    forall slot: P.Slot :: IsCanonical(slot.identity) ==> Mirrors(docs, now, store, slot)
  }

  /** What the documents become. */
  ghost function ServedDocs(docs: Docs, call: Call, now: int): Docs {
    var id := DocId(call.device, call.hash);
    match call
    case Reserve(device, hash, ttl) =>
      if GroupDocs(docs, device, hash) == map[] then docs[id := Reservation(Some(now + ttl), NoOperation)] else docs
    case Record(device, hash, op) =>
      if Records(docs, device, hash, op, now) then RecordDocs(docs, device, hash, op) else docs
    case Release(_, _) => docs - {id}
    case _ => docs
  }

  /** The store's answer is the one the protocol works with, and no other. */
  lemma AnswersMirror(docs: Docs, now: int, s: P.State, call: Call, docs': Docs, answer: Answer)
    requires Mirrors(docs, now, s.store, SlotOf(call))
    ensures Serves(docs, call, now, docs', answer) <==> docs' == ServedDocs(docs, call, now) && answer == Heard(s, call)
  {
    hide GroupDocs, ReadsAs, RecordDocs, Designates, Records, P.MayRecord, P.DurableOperation;
    var slot := SlotOf(call);
    if call.Get? && answer.Operation? { ReadMirrors(docs, now, s, slot, answer.result); }
    if call.Record? { RecordMirrors(docs, now, s, slot, call.op); }
    hide AllReadable, Unreadable;
  }

  /** A canonical call; a reservation has a lifetime, and a release is of a reservation some request minted. */
  ghost predicate CallFits(s: P.State, call: Call) {
    IsCanonical(call.device) && (call.Reserve? ==> call.ttl > 0) &&
    (call.Release? && SlotOf(call) in s.store ==> s.store[SlotOf(call)].holder.Some?)
  }

  /** A transaction keeps the mirror of its own slot. */
  lemma OwnSlotMirrors(docs: Docs, now: int, s: P.State, r: nat, call: Call, docs': Docs, answer: Answer)
    requires CallFits(s, call) && Mirrors(docs, now, s.store, SlotOf(call)) && Serves(docs, call, now, docs', answer)
    ensures Mirrors(docs', now, StoreAfter(s, call, r), SlotOf(call))
  {
    hide Mirrors, IsCanonical, GroupDocs, ReadsAs, Records, RecordDocs, P.MayRecord, P.Minted, P.Without;
    var slot := SlotOf(call);
    match call {
      case Reserve(_, _, ttl) => ReservedMirrors(docs, now, ttl, s.store, slot, r, docs', answer);
      case Record(_, _, op) =>
        RecordMirrors(docs, now, s, slot, op);
        if P.MayRecord(s, slot, op) { RecordedMirrors(docs, now, s, slot, op); }
      case Release(_, _) => ReleasedMirrors(docs, now, s.store, slot, docs', answer);
      case _ =>
    }
  }

  /** And of every other slot. */
  lemma OtherSlotMirrors(docs: Docs, now: int, s: P.State, r: nat, call: Call, docs': Docs, answer: Answer,
                         slot: P.Slot)
    requires slot != SlotOf(call) && IsCanonical(call.device) && IsCanonical(slot.identity)
    requires Mirrors(docs, now, s.store, slot) && Serves(docs, call, now, docs', answer)
    ensures Mirrors(docs', now, StoreAfter(s, call, r), slot)
  {
    hide Serves, IsCanonical, P.MayRecord, AllReadable, Unreadable, Designates, Documents;
    OthersMirror(docs, call, now, docs', answer, s.store, slot);
    var store := StoreAfter(s, call, r);
    assert (slot in store <==> slot in s.store) && (slot in s.store ==> store[slot] == s.store[slot]);
    hide StoreAfter;
  }

  lemma CallMirrors(docs: Docs, now: int, s: P.State, r: nat, call: Call, docs': Docs, answer: Answer)
    requires CallFits(s, call) && AllMirror(docs, now, s.store) && Serves(docs, call, now, docs', answer)
    ensures AllMirror(docs', now, StoreAfter(s, call, r))
  {
    hide Serves, IsCanonical, StoreAfter, Mirrors;
    forall slot: P.Slot | IsCanonical(slot.identity) ensures Mirrors(docs', now, StoreAfter(s, call, r), slot) {
      if slot == SlotOf(call) { OwnSlotMirrors(docs, now, s, r, call, docs', answer); }
      else { OtherSlotMirrors(docs, now, s, r, call, docs', answer, slot); }
    }
  }

  // ---- time and reaping -----------------------------------------------------------------------------

  /** The record is marked expired when the clock says so. */
  ghost predicate Timely(docs: Docs, now: int, store: Store, slot: P.Slot) {
    var g := Documents(docs, slot);
    slot in store ==> if store[slot].expired then Unreadable(g, now) else forall a :: a in g ==> Live(g[a], now)
  }

  ghost predicate AllTimely(docs: Docs, now: int, store: Store) {
    forall slot: P.Slot :: IsCanonical(slot.identity) ==> Timely(docs, now, store, slot)
  }

  lemma AgedMirrors(docs: Docs, now: int, later: int, store: Store, store': Store, slot: P.Slot)
    requires Mirrors(docs, now, store, slot) && Timely(docs, later, store', slot) && (slot in store <==> slot in store')
    requires slot in store ==>
      store'[slot] == store[slot].(expired := store'[slot].expired) && (store[slot].expired ==> store'[slot].expired)
    ensures Mirrors(docs, later, store', slot)
  {
    hide GroupDocs, Designates;
  }

  /** Time-to-live reaping of a whole group. */
  ghost function ReapedDocs(docs: Docs, slot: P.Slot): Docs {
    map id | id in docs && !(id.hash == slot.image && id.device in IdentityGroup(slot.identity)) :: docs[id]
  }

  lemma ReapedGroups(docs: Docs, slot: P.Slot, other: P.Slot)
    requires IsCanonical(slot.identity) && IsCanonical(other.identity)
    ensures Reaps(docs, ReapedDocs(docs, slot))
    ensures Documents(ReapedDocs(docs, slot), other) == if other == slot then map[] else Documents(docs, other)
  {
    hide IdentityGroup, IsCanonical;
    if other.identity != slot.identity { IdentityGroupsDisjoint(slot.identity, other.identity); }
  }

  lemma ReapMirrors(docs: Docs, now: int, store: Store, slot: P.Slot)
    requires IsCanonical(slot.identity) && AllMirror(docs, now, store)
    ensures AllMirror(ReapedDocs(docs, slot), now, P.Without(store, slot))
  {
    hide IsCanonical, Documents, ReapedDocs, Unreadable, AllReadable, Designates;
    forall other: P.Slot | IsCanonical(other.identity)
      ensures Mirrors(ReapedDocs(docs, slot), now, P.Without(store, slot), other)
    {
      ReapedGroups(docs, slot, other);
      assert Mirrors(docs, now, store, other);
    }
  }

  // ---- whole runs -------------------------------------------------------------------------------------

  /** What the durable store does beside a run: its documents in every state, when, and what it answered. */
  datatype Shadow = Shadow(docs: seq<Docs>, times: seq<int>, ttls: seq<int>, answers: seq<Answer>)

  ghost predicate Accompanies(s: P.State, step: P.Step, ttl: int, docs: Docs, now: int, docs': Docs, answer: Answer) {
    ttl > 0 &&
    match StoreCall(s, step, ttl)
    case Some(call) => Serves(docs, call, now, docs', answer)
    case None => docs' == if step.Reap? then ReapedDocs(docs, step.slot) else docs
  }

  /** The identities the handler builds. */
  ghost predicate CanonicalState(s: P.State) {
    (forall r :: r in s.reqs ==> IsCanonical(s.reqs[r].slot.identity)) &&
    forall slot :: slot in s.store ==> IsCanonical(slot.identity)
  }

  /** The call of a step is one of its request. */
  ghost predicate Known(s: P.State, step: P.Step, ttl: int) {
    match StoreCall(s, step, ttl)
    case Some(call) =>
      step.Act? && SlotOf(call) == s.reqs[step.r].slot && (call.Reserve? ==> call.ttl == ttl) &&
      (ttl > 0 ==> CallFits(s, call))
    case None => step.Reap? && step.slot in s.store ==> IsCanonical(step.slot.identity)
  }

  lemma CallKnows(s: P.State, step: P.Step, ttl: int)
    requires ScanSafety.Inv(s) && CanonicalState(s)
    ensures Known(s, step, ttl)
  {
    hide IsCanonical;
    if StoreCall(s, step, ttl).Some? { assert ScanSafety.ReqOk(s, step.r); }
    hide ScanSafety.Inv, ScanSafety.WaitOk, ScanSafety.OwnOk, ScanSafety.OwningOk, P.AfterRecord;
  }

  lemma CallStepMirrors(s: P.State, r: nat, call: Call, docs: Docs, now: int, docs': Docs, answer: Answer)
    requires CallFits(s, call) && AllMirror(docs, now, s.store) && Serves(docs, call, now, docs', answer)
    ensures AllMirror(docs', now, StoreAfter(s, call, r)) && answer == Heard(s, call)
  {
    hide Mirrors, StoreAfter, Serves, IsCanonical, Heard;
    AnswersMirror(docs, now, s, call, docs', answer);
    CallMirrors(docs, now, s, r, call, docs', answer);
  }

  lemma StepMirrors(s: P.State, step: P.Step, ttl: int, docs: Docs, now: int, docs': Docs, answer: Answer)
    requires Known(s, step, ttl) && (step.Reap? ==> step.slot in s.store)
    requires AllMirror(docs, now, s.store) && Accompanies(s, step, ttl, docs, now, docs', answer)
    ensures AllMirror(docs', now, if step.Lapse? then s.store else StoreNext(s, step, ttl))
    ensures StoreCall(s, step, ttl).Some? ==> answer == Heard(s, StoreCall(s, step, ttl).value)
  {
    hide Mirrors, Serves, IsCanonical, ReapedDocs, StoreAfter, Heard;
    if StoreCall(s, step, ttl).Some? {
      CallStepMirrors(s, step.r, StoreCall(s, step, ttl).value, docs, now, docs', answer);
    } else if step.Reap? {
      ReapMirrors(docs, now, s.store, step.slot);
    }
  }

  ghost predicate Shadows(states: seq<P.State>, steps: seq<P.Step>, h: Shadow) {
    |states| == |h.docs| == |h.times| == |steps| + 1 && |h.ttls| == |h.answers| == |steps| &&
    (forall k :: 0 <= k < |steps| ==>
       Accompanies(states[k], steps[k], h.ttls[k], h.docs[k], h.times[k], h.docs[k + 1], h.answers[k])) &&
    (forall k :: 0 <= k < |states| ==> AllTimely(h.docs[k], h.times[k], states[k].store))
  }

  /** Every identity of the run is one the handler builds. */
  ghost predicate Canonical(states: seq<P.State>) {
    (|states| > 0 ==> CanonicalState(states[0])) && forall k :: 0 <= k < |states| ==> CanonicalRequests(states[k])
  }

  ghost predicate CanonicalRequests(s: P.State) {
    forall r :: r in s.reqs ==> IsCanonical(s.reqs[r].slot.identity)
  }

  lemma StoreNextCanonical(s: P.State, step: P.Step, ttl: int)
    requires CanonicalState(s)
    ensures forall slot :: slot in StoreNext(s, step, ttl) ==> IsCanonical(slot.identity)
  {
    hide IsCanonical, P.MayRecord, P.AfterRecord, P.Releases;
  }

  lemma {:induction false} StaysCanonical(states: seq<P.State>, steps: seq<P.Step>, k: nat)
    requires ScanSafety.Run(states, steps) && Canonical(states) && k < |states|
    ensures CanonicalState(states[k])
  {
    hide P.Next, IsCanonical, ScanSafety.Initial;
    if k > 0 {
      StaysCanonical(states, steps, k - 1);
      assert P.Next(states[k - 1], steps[k - 1]) == Some(states[k]);
      StoreFollows(states[k - 1], steps[k - 1], 1);
      StoreNextCanonical(states[k - 1], steps[k - 1], 1);
      hide StoreNext;
    }
  }

  /** From the documents right after the transaction to those in the next state. */
  lemma AllAged(docs: Docs, now: int, later: int, s: P.State, step: P.Step, ttl: int)
    requires AllMirror(docs, now, if step.Lapse? then s.store else StoreNext(s, step, ttl))
    requires AllTimely(docs, later, StoreNext(s, step, ttl))
    ensures AllMirror(docs, later, StoreNext(s, step, ttl))
  {
    hide Mirrors, Timely, IsCanonical, StoreAfter, StoreCall;
    var store' := StoreNext(s, step, ttl);
    var store := if step.Lapse? then s.store else store';
    forall slot: P.Slot | IsCanonical(slot.identity) ensures Mirrors(docs, later, store', slot) {
      if step.Lapse? { LapseOnly(s, step, ttl, slot); }
      hide StoreNext;
      AgedMirrors(docs, now, later, store, store', slot);
    }
  }

  lemma LapseOnly(s: P.State, step: P.Step, ttl: int, slot: P.Slot)
    requires step.Lapse?
    ensures var store := StoreNext(s, step, ttl);
      (slot in store <==> slot in s.store) &&
      (slot in store ==> store[slot] == s.store[slot].(expired := s.store[slot].expired || slot == step.slot))
  {
  }

  lemma ReapsStored(s: P.State, step: P.Step)
    requires P.Next(s, step).Some?
    ensures step.Reap? ==> step.slot in s.store
  {
    hide P.Acts, P.Arrived, P.Crashing, P.Lapsed;
  }

  /** All the store needs to know of a step: whose call it carries, and what becomes of the records. */
  ghost predicate StepFits(states: seq<P.State>, steps: seq<P.Step>, k: int, ttl: int)
    requires 0 <= k < |steps| < |states|
  {
    var (s, step) := (states[k], steps[k]);
    Known(s, step, ttl) && (step.Reap? ==> step.slot in s.store) && states[k + 1].store == StoreNext(s, step, ttl)
  }

  ghost predicate RunFits(states: seq<P.State>, steps: seq<P.Step>) {
    |states| == |steps| + 1 &&
    forall k, ttl: int :: 0 <= k < |steps| ==> StepFits(states, steps, k, ttl)
  }

  lemma RunsFit(states: seq<P.State>, steps: seq<P.Step>)
    requires ScanSafety.Run(states, steps) && Canonical(states)
    ensures RunFits(states, steps)
  {
    hide P.Next, ScanSafety.Initial, ScanSafety.Inv, Canonical, CanonicalState, Known, StoreNext;
    forall k, ttl: int | 0 <= k < |steps| ensures StepFits(states, steps, k, ttl) {
      ScanSafety.Reachable(states, steps, k);
      StaysCanonical(states, steps, k);
      assert P.Next(states[k], steps[k]) == Some(states[k + 1]);
      StoreFollows(states[k], steps[k], ttl);
      ReapsStored(states[k], steps[k]);
      CallKnows(states[k], steps[k], ttl);
    }
  }

  lemma {:induction false} MirrorsAlong(states: seq<P.State>, steps: seq<P.Step>, h: Shadow, k: nat)
    requires RunFits(states, steps) && Shadows(states, steps, h) && k < |states|
    requires AllMirror(h.docs[0], h.times[0], states[0].store)
    ensures AllMirror(h.docs[k], h.times[k], states[k].store)
  {
    hide Accompanies, AllTimely, AllMirror, Known, StoreNext, StoreCall, Heard;
    if k > 0 {
      var j := k - 1;
      MirrorsAlong(states, steps, h, j);
      assert StepFits(states, steps, j, h.ttls[j]);
      assert Accompanies(states[j], steps[j], h.ttls[j], h.docs[j], h.times[j], h.docs[j + 1], h.answers[j]);
      StepMirrors(states[j], steps[j], h.ttls[j], h.docs[j], h.times[j], h.docs[k], h.answers[j]);
      AllAged(h.docs[k], h.times[j], h.times[k], states[j], steps[j], h.ttls[j]);
    }
  }

  /**
   Beside any run of the protocol, let the durable store serve its transactions, let records be marked
   expired when the clock says so, and reap. Then in every state every group of documents says what the
   record of its slot says.
   */
  lemma ShadowMirrors(states: seq<P.State>, steps: seq<P.Step>, h: Shadow, k: nat)
    requires ScanSafety.Run(states, steps) && Canonical(states) && Shadows(states, steps, h) && k < |states|
    requires AllMirror(h.docs[0], h.times[0], states[0].store)
    ensures AllMirror(h.docs[k], h.times[k], states[k].store)
  {
    RunsFit(states, steps);
    hide ScanSafety.Run, Canonical, RunFits, AllMirror;
    MirrorsAlong(states, steps, h, k);
  }

  /** And every transaction is answered as the protocol takes it. */
  lemma ShadowAnswers(states: seq<P.State>, steps: seq<P.Step>, h: Shadow, k: nat)
    requires ScanSafety.Run(states, steps) && Canonical(states) && Shadows(states, steps, h) && k < |steps|
    requires AllMirror(h.docs[0], h.times[0], states[0].store)
    ensures var call := StoreCall(states[k], steps[k], h.ttls[k]);
      call.Some? ==>
        Serves(h.docs[k], call.value, h.times[k], h.docs[k + 1], Heard(states[k], call.value)) &&
        h.answers[k] == Heard(states[k], call.value)
  {
    RunsFit(states, steps);
    hide ScanSafety.Run, Canonical, AllTimely, AllMirror, Known, StoreNext, Heard, Serves, StoreCall;
    MirrorsAlong(states, steps, h, k);
    assert StepFits(states, steps, k, h.ttls[k]);
    assert Accompanies(states[k], steps[k], h.ttls[k], h.docs[k], h.times[k], h.docs[k + 1], h.answers[k]);
    StepMirrors(states[k], steps[k], h.ttls[k], h.docs[k], h.times[k], h.docs[k + 1], h.answers[k]);
  }

  // ---- every run has a shadow ---------------------------------------------------------------------------

  /** When the record of a slot is next marked expired, with one tick a step; never is after the end. */
  function Due(steps: seq<P.Step>, k: nat, slot: P.Slot): (due: int)
    ensures due > k
    decreases |steps| - k
  {
    if k >= |steps| then k + 1 else if steps[k] == P.Lapse(slot) then k + 1 else Due(steps, k + 1, slot)
  }

  ghost predicate DueAt(docs: Docs, store: Store, slot: P.Slot, due: int) {
    var g := Documents(docs, slot);
    slot in store && !store[slot].expired ==> forall a :: a in g ==> g[a].expires == Some(due)
  }

  ghost predicate AllDue(docs: Docs, store: Store, steps: seq<P.Step>, k: nat) {
    forall slot: P.Slot :: IsCanonical(slot.identity) ==> DueAt(docs, store, slot, Due(steps, k, slot))
  }

  lemma RecordedDue(docs: Docs, now: int, s: P.State, slot: P.Slot, op: string, due: int)
    requires Mirrors(docs, now, s.store, slot) && P.MayRecord(s, slot, op) && DueAt(docs, s.store, slot, due)
    ensures DueAt(RecordDocs(docs, slot.identity, slot.image, op), s.store[slot := s.store[slot].(op := op)], slot, due)
  {
    hide IdentityGroup;
    var g, g' := Documents(docs, slot), Documents(RecordDocs(docs, slot.identity, slot.image, op), slot);
    forall a | a in g' ensures a in g && g'[a] == g[a].(operation := Text(op)) {}
  }

  /** A new reservation is given a lifetime that ends when it is due; no other call changes when a group ends. */
  lemma OwnSlotDue(docs: Docs, now: int, s: P.State, r: nat, call: Call, docs': Docs, answer: Answer, due: int)
    requires IsCanonical(call.device) && Mirrors(docs, now, s.store, SlotOf(call))
    requires Serves(docs, call, now, docs', answer)
    requires DueAt(docs, s.store, SlotOf(call), due) && (call.Reserve? ==> call.ttl > 0 && now + call.ttl == due)
    ensures DueAt(docs', StoreAfter(s, call, r), SlotOf(call), due)
  {
    hide Mirrors, IsCanonical, Documents, ReadsAs, Records, RecordDocs, P.MayRecord, GroupDocs;
    var slot := SlotOf(call);
    match call {
      case Reserve(_, _, ttl) => ReservedMirrors(docs, now, ttl, s.store, slot, r, docs', answer);
      case Record(_, _, op) =>
        RecordMirrors(docs, now, s, slot, op);
        if P.MayRecord(s, slot, op) { RecordedDue(docs, now, s, slot, op, due); }
      case _ =>
    }
  }

  lemma OtherSlotDue(docs: Docs, now: int, s: P.State, r: nat, call: Call, docs': Docs, answer: Answer, slot: P.Slot,
                     due: int)
    requires slot != SlotOf(call) && IsCanonical(call.device) && IsCanonical(slot.identity)
    requires DueAt(docs, s.store, slot, due) && Serves(docs, call, now, docs', answer)
    ensures DueAt(docs', StoreAfter(s, call, r), slot, due)
  {
    hide Serves, IsCanonical, P.MayRecord, Documents;
    OthersMirror(docs, call, now, docs', answer, s.store, slot);
    var store := StoreAfter(s, call, r);
    assert (slot in store <==> slot in s.store) && (slot in s.store ==> store[slot] == s.store[slot]);
    hide StoreAfter;
  }

  /** What is due later has not expired; what is due has. */
  lemma DueTimely(docs: Docs, now: int, store: Store, slot: P.Slot, due: int)
    requires Mirrors(docs, now, store, slot) && DueAt(docs, store, slot, due)
    ensures due > now + 1 ==> Timely(docs, now + 1, store, slot)
    ensures due == now + 1 && slot in store ==> Unreadable(Documents(docs, slot), now + 1)
  {
    hide GroupDocs, Designates;
    var g := Documents(docs, slot);
    if due == now + 1 && slot in store && !store[slot].expired {
      var a :| a in g;
      assert !Live(g[a], now + 1);
    }
  }

  lemma CallDue(docs: Docs, now: int, s: P.State, r: nat, call: Call, docs': Docs, answer: Answer, steps: seq<P.Step>,
                k: nat)
    requires AllMirror(docs, now, s.store) && AllDue(docs, s.store, steps, k) && IsCanonical(call.device)
    requires Serves(docs, call, now, docs', answer)
    requires call.Reserve? ==> call.ttl > 0 && now + call.ttl == Due(steps, k, SlotOf(call))
    ensures AllDue(docs', StoreAfter(s, call, r), steps, k)
  {
    hide Serves, IsCanonical, StoreAfter, Mirrors, DueAt, Due;
    forall slot: P.Slot | IsCanonical(slot.identity)
      ensures DueAt(docs', StoreAfter(s, call, r), slot, Due(steps, k, slot))
    {
      if slot == SlotOf(call) { OwnSlotDue(docs, now, s, r, call, docs', answer, Due(steps, k, slot)); }
      else { OtherSlotDue(docs, now, s, r, call, docs', answer, slot, Due(steps, k, slot)); }
    }
  }

  lemma ReapDue(docs: Docs, store: Store, slot: P.Slot, steps: seq<P.Step>, k: nat)
    requires IsCanonical(slot.identity) && AllDue(docs, store, steps, k)
    ensures AllDue(ReapedDocs(docs, slot), P.Without(store, slot), steps, k)
  {
    hide IsCanonical, Documents, ReapedDocs, Due;
    forall other: P.Slot | IsCanonical(other.identity)
      ensures DueAt(ReapedDocs(docs, slot), P.Without(store, slot), other, Due(steps, k, other))
    {
      ReapedGroups(docs, slot, other);
      assert DueAt(docs, store, other, Due(steps, k, other));
    }
  }

  /** One tick later. */
  lemma TickTimely(docs: Docs, k: nat, s: P.State, step: P.Step, ttl: int, steps: seq<P.Step>)
    requires k < |steps| && steps[k] == step
    requires var store := if step.Lapse? then s.store else StoreNext(s, step, ttl);
      AllMirror(docs, k, store) && AllDue(docs, store, steps, k)
    ensures AllTimely(docs, k + 1, StoreNext(s, step, ttl)) && AllDue(docs, StoreNext(s, step, ttl), steps, k + 1)
  {
    hide IsCanonical, Mirrors, Documents, Unreadable, StoreAfter, StoreCall;
    var store' := StoreNext(s, step, ttl);
    var store := if step.Lapse? then s.store else store';
    forall slot: P.Slot | IsCanonical(slot.identity)
      ensures Timely(docs, k + 1, store', slot) && DueAt(docs, store', slot, Due(steps, k + 1, slot))
    {
      DueTimely(docs, k, store, slot, Due(steps, k, slot));
      if step.Lapse? { LapseOnly(s, step, ttl, slot); }
      hide StoreNext;
    }
  }

  /** How the store goes along with one more call. */
  lemma CallGoesAlong(s: P.State, r: nat, call: Call, docs: Docs, steps: seq<P.Step>, k: nat)
    returns (docs': Docs, answer: Answer)
    requires CallFits(s, call) && (call.Reserve? ==> k + call.ttl == Due(steps, k, SlotOf(call)))
    requires AllMirror(docs, k, s.store) && AllDue(docs, s.store, steps, k)
    ensures Serves(docs, call, k, docs', answer)
    ensures AllMirror(docs', k, StoreAfter(s, call, r)) && AllDue(docs', StoreAfter(s, call, r), steps, k)
  {
    hide Mirrors, StoreAfter, Serves, IsCanonical, Heard, Due, DueAt, AllDue, ServedDocs;
    docs', answer := ServedDocs(docs, call, k), Heard(s, call);
    AnswersMirror(docs, k, s, call, docs', answer);
    CallMirrors(docs, k, s, r, call, docs', answer);
    CallDue(docs, k, s, r, call, docs', answer, steps, k);
  }

  lemma GoesAlong(s: P.State, step: P.Step, ttl: int, docs: Docs, steps: seq<P.Step>, k: nat)
    returns (docs': Docs, answer: Answer)
    requires Known(s, step, ttl) && ttl > 0 && (step.Reap? ==> step.slot in s.store)
    requires step.Act? && step.r in s.reqs && step.action.Reserve? ==> k + ttl == Due(steps, k, s.reqs[step.r].slot)
    requires AllMirror(docs, k, s.store) && AllDue(docs, s.store, steps, k)
    ensures Accompanies(s, step, ttl, docs, k, docs', answer)
    ensures var store := if step.Lapse? then s.store else StoreNext(s, step, ttl);
      AllMirror(docs', k, store) && AllDue(docs', store, steps, k)
  {
    hide Mirrors, Serves, IsCanonical, ReapedDocs, StoreAfter, Due, DueAt;
    if StoreCall(s, step, ttl).Some? {
      docs', answer := CallGoesAlong(s, step.r, StoreCall(s, step, ttl).value, docs, steps, k);
    } else {
      docs', answer := if step.Reap? then ReapedDocs(docs, step.slot) else docs, Done;
      if step.Reap? {
        ReapMirrors(docs, k, s.store, step.slot);
        ReapDue(docs, s.store, step.slot, steps, k);
      }
    }
  }

  /** The lifetime a reservation minted at step `k` is given. */
  function Lifetime(s: P.State, step: P.Step, steps: seq<P.Step>, k: nat): (ttl: int)
    ensures ttl > 0
  {
    if step.Act? && step.r in s.reqs then Due(steps, k, s.reqs[step.r].slot) - k else 1
  }

  lemma StepGoesAlong(states: seq<P.State>, steps: seq<P.Step>, k: nat, docs: Docs)
    returns (ttl: int, docs': Docs, answer: Answer)
    requires RunFits(states, steps) && k < |steps|
    requires AllMirror(docs, k, states[k].store) && AllDue(docs, states[k].store, steps, k)
    ensures Accompanies(states[k], steps[k], ttl, docs, k, docs', answer)
    ensures AllTimely(docs', k + 1, states[k + 1].store)
    ensures AllMirror(docs', k + 1, states[k + 1].store) && AllDue(docs', states[k + 1].store, steps, k + 1)
  {
    hide Known, AllMirror, AllDue, AllTimely, Accompanies, StoreNext, Due;
    ttl := Lifetime(states[k], steps[k], steps, k);
    assert StepFits(states, steps, k, ttl);
    docs', answer := GoesAlong(states[k], steps[k], ttl, docs, steps, k);
    TickTimely(docs', k, states[k], steps[k], ttl, steps);
    AllAged(docs', k, k + 1, states[k], steps[k], ttl);
  }

  /** Documents that start out in line with the run. */
  ghost predicate InLine(docs: Docs, s: P.State, steps: seq<P.Step>) {
    AllMirror(docs, 0, s.store) && AllTimely(docs, 0, s.store) && AllDue(docs, s.store, steps, 0)
  }

  /** The first `n` steps of a run, with the store beside them. */
  lemma {:induction false} ShadowUpTo(states: seq<P.State>, steps: seq<P.Step>, docs: Docs, n: nat) returns (h: Shadow)
    requires RunFits(states, steps) && n <= |steps| && InLine(docs, states[0], steps)
    ensures |h.docs| == |h.times| == n + 1 && Shadows(states[..n + 1], steps[..n], h) && h.docs[0] == docs
    ensures h.times[0] == 0
    ensures h.times[n] == n && AllMirror(h.docs[n], n, states[n].store) && AllDue(h.docs[n], states[n].store, steps, n)
  {
    hide StepFits, AllMirror, AllDue, AllTimely, Accompanies;
    if n == 0 {
      h := Shadow([docs], [0], [], []);
    } else {
      var g := ShadowUpTo(states, steps, docs, n - 1);
      var ttl, docs', answer := StepGoesAlong(states, steps, n - 1, g.docs[n - 1]);
      h := Shadow(g.docs + [docs'], g.times + [n], g.ttls + [ttl], g.answers + [answer]);
      ShadowGrows(states[..n], steps[..n - 1], g, states[n], steps[n - 1], docs', n, ttl, answer);
      assert states[..n] + [states[n]] == states[..n + 1] && steps[..n - 1] + [steps[n - 1]] == steps[..n];
    }
  }

  lemma ShadowGrows(states: seq<P.State>, steps: seq<P.Step>, h: Shadow, s: P.State, step: P.Step, docs: Docs, now: int,
                    ttl: int, answer: Answer)
    requires Shadows(states, steps, h) && AllTimely(docs, now, s.store)
    requires Accompanies(states[|steps|], step, ttl, h.docs[|steps|], h.times[|steps|], docs, answer)
    ensures var grown := Shadow(h.docs + [docs], h.times + [now], h.ttls + [ttl], h.answers + [answer]);
      Shadows(states + [s], steps + [step], grown)
  {
    hide Accompanies, AllTimely;
  }

  /** One canonical document for every record left from before the run. */
  ghost function FirstDocs(store: Store, steps: seq<P.Step>): Docs {
    map id | id in (set slot | slot in store :: DocId(slot.identity, slot.image)) ::
      FirstDoc(store[P.Slot(id.device, id.hash)], Due(steps, 0, P.Slot(id.device, id.hash)))
  }

  function FirstDoc(record: P.Reservation, due: int): Reservation {
    Reservation(Some(if record.expired then 0 else due), if record.op == "" then NoOperation else Text(record.op))
  }

  ghost predicate ShortOperations(store: Store) {
    forall slot :: slot in store ==> |store[slot].op| <= MAX_OPERATION_LENGTH
  }

  lemma FirstGroup(store: Store, steps: seq<P.Step>, slot: P.Slot)
    requires IsCanonical(slot.identity) && forall other :: other in store ==> IsCanonical(other.identity)
    ensures Documents(FirstDocs(store, steps), slot) ==
      if slot in store then map[slot.identity := FirstDoc(store[slot], Due(steps, 0, slot))] else map[]
  {
    hide IdentityGroup, IsCanonical, Due, FirstDoc;
    CanonicalIsOwnAlias(slot.identity);
    var docs := FirstDocs(store, steps);
    forall a | a in IdentityGroup(slot.identity) && DocId(a, slot.image) in docs ensures a == slot.identity {
      assert P.Slot(a, slot.image) in store;
      CanonicalIsOwnAlias(a);
      if a != slot.identity { IdentityGroupsDisjoint(a, slot.identity); }
    }
  }

  lemma FirstDocsInLine(s: P.State, steps: seq<P.Step>)
    requires CanonicalState(s) && ShortOperations(s.store)
    requires forall slot :: slot in s.store ==> s.store[slot].holder == None
    ensures InLine(FirstDocs(s.store, steps), s, steps)
  {
    hide IsCanonical, FirstDocs, GroupDocs;
    var docs := FirstDocs(s.store, steps);
    forall slot: P.Slot | IsCanonical(slot.identity)
      ensures Mirrors(docs, 0, s.store, slot) && Timely(docs, 0, s.store, slot)
      ensures DueAt(docs, s.store, slot, Due(steps, 0, slot))
    {
      FirstGroup(s.store, steps, slot);
      FirstMirrors(docs, s.store, slot, Due(steps, 0, slot));
    }
  }

  lemma FirstMirrors(docs: Docs, store: Store, slot: P.Slot, due: int)
    requires Documents(docs, slot) == if slot in store then map[slot.identity := FirstDoc(store[slot], due)] else map[]
    requires slot in store ==> store[slot].holder == None && |store[slot].op| <= MAX_OPERATION_LENGTH
    requires due > 0
    ensures Mirrors(docs, 0, store, slot) && Timely(docs, 0, store, slot) && DueAt(docs, store, slot, due)
  {
    hide Documents;
    var g := Documents(docs, slot);
    if slot in store { assert slot.identity in g; }
  }

  /**
   Every run of the protocol is a run over the durable store: with lifetimes that end when the run says
   so, the store serves every transaction with the answer the run worked with, and in every state every
   group of documents says what the record of its slot says.
   */
  lemma EveryRunHasShadow(states: seq<P.State>, steps: seq<P.Step>) returns (h: Shadow)
    requires ScanSafety.Run(states, steps) && Canonical(states) && ShortOperations(states[0].store)
    ensures Shadows(states, steps, h)
    ensures forall k :: 0 <= k < |states| ==> AllMirror(h.docs[k], h.times[k], states[k].store)
  {
    FirstDocsInLine(states[0], steps);
    RunsFit(states, steps);
    hide ScanSafety.Initial, P.Next, Canonical, AllMirror, AllDue, AllTimely, Accompanies, ShortOperations, FirstDocs;
    hide RunFits;
    h := ShadowUpTo(states, steps, FirstDocs(states[0].store, steps), |steps|);
    assert states[..|steps| + 1] == states && steps[..|steps|] == steps;
    forall k | 0 <= k < |states| ensures AllMirror(h.docs[k], h.times[k], states[k].store) {
      ShadowMirrors(states, steps, h, k);
    }
  }
}
