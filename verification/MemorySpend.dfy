/**
 The in-memory spend store and how far it agrees with the durable one
 (cmd/ocr/spend_gate.go:118-186, internal/firestore/store.go:225-346).
 */
module MemorySpend {
  import opened Wrappers
  import opened SpendStore

  const DEFAULT_IDEMPOTENCY_TTL: int := 86400000000000

  /** `seen` holds expiries, `ops` accepted operations. */
  datatype Memory = Memory(seen: map<DocId, int>, ops: map<DocId, string>)

  predicate Holds(m: Memory, id: DocId, now: int) { id in m.seen && m.seen[id] > now }

  function OpOf(m: Memory, id: DocId): string { if id in m.ops then m.ops[id] else "" }

  function EffectiveTtl(ttl: int): int { if ttl <= 0 then DEFAULT_IDEMPOTENCY_TTL else ttl }

  /** What each call leaves behind and answers. */
  function MemServes(m: Memory, call: Call, now: int): (Memory, Answer) {
    var id := DocId(call.device, call.hash);
    match call
    case Reserve(_, _, ttl) =>
      if Holds(m, id, now) then (m, Flag(false))
      else (Memory(m.seen[id := now + EffectiveTtl(ttl)], m.ops - {id}), Flag(true))
    case Has(_, _) => (m, Flag(Holds(m, id, now)))
    case Record(_, _, op) =>
      if !Holds(m, id, now) || op == "" || (OpOf(m, id) != "" && OpOf(m, id) != op) then (m, Operation(Refused))
      else (m.(ops := m.ops[id := op]), Operation(Accepted(op)))
    case Get(_, _) =>
      if id !in m.seen then (m, Operation(Accepted("")))
      else if !Holds(m, id, now) then (m, Operation(Refused))
      else (m, Operation(Accepted(OpOf(m, id))))
    case Release(_, _) => (Memory(m.seen - {id}, m.ops - {id}), Done)
  }

  class MemorySpendStore {
    var seen: map<DocId, int>
    var ops: map<DocId, string>

    ghost function View(): Memory reads this { Memory(seen, ops) }

    method ReserveOcr(device: string, hash: string, now: int, ttl0: int) returns (isFresh: bool)
      modifies this
      ensures (View(), Flag(isFresh)) == MemServes(old(View()), Reserve(device, hash, ttl0), now)
    {
      var key, ttl := DocId(device, hash), ttl0;
      if key in seen && seen[key] > now { return false; }
      if ttl <= 0 { ttl := DEFAULT_IDEMPOTENCY_TTL; }
      seen := seen[key := now + ttl];
      ops := ops - {key};
      return true;
    }

    method ReleaseOcr(device: string, hash: string)
      modifies this
      ensures (View(), Done) == MemServes(old(View()), Release(device, hash), 0)
    {
      seen := seen - {DocId(device, hash)};
      ops := ops - {DocId(device, hash)};
    }

    method HasOcrReservation(device: string, hash: string, now: int) returns (has: bool)
      ensures (View(), Flag(has)) == MemServes(View(), Has(device, hash), now)
    {
      has := DocId(device, hash) in seen && seen[DocId(device, hash)] > now;
    }

    method RecordOcrOperation(device: string, hash: string, operation: string, now: int) returns (r: OpResult)
      modifies this
      ensures (View(), Operation(r)) == MemServes(old(View()), Record(device, hash, operation), now)
    {
      var key := DocId(device, hash);
      var current := if key in ops then ops[key] else "";
      if !(key in seen && seen[key] > now) || operation == "" || (current != "" && current != operation) {
        return Refused;
      }
      ops := ops[key := operation];
      return Accepted(operation);
    }

    method GetOcrOperation(device: string, hash: string, now: int) returns (r: OpResult)
      ensures (View(), Operation(r)) == MemServes(View(), Get(device, hash), now)
    {
      var key := DocId(device, hash);
      if key !in seen { return Accepted(""); }
      if seen[key] <= now { return Refused; }
      return Accepted(if key in ops then ops[key] else "");
    }
  }

  // ---- the simulation ----------------------------------------------------------------------

  /** One durable document says what memory says about the same slot. */
  predicate SameSlot(docs: Docs, m: Memory, id: DocId) {
    (id in docs <==> id in m.seen) && (id in m.ops ==> id in m.seen) &&
    (id in docs ==>
      IsCanonical(id.device) && docs[id].expires == Some(m.seen[id]) &&
      docs[id].operation == (if OpOf(m, id) == "" then NoOperation else Text(OpOf(m, id))) &&
      |OpOf(m, id)| <= MAX_OPERATION_LENGTH)
  }

  /** No legacy alias documents: every durable document is a canonical slot of the memory store. */
  ghost predicate Simulates(docs: Docs, m: Memory) {
    forall id :: SameSlot(docs, m, id)
  }

  /** What the agreement assumes of a call: canonical caller, positive TTL, operation of storable length. */
  predicate Ordinary(call: Call) {
    IsCanonical(call.device) && (call.Reserve? ==> call.ttl > 0) && (call.Record? ==> |call.op| <= MAX_OPERATION_LENGTH)
  }

  predicate Expired(m: Memory, call: Call, now: int) {
    DocId(call.device, call.hash) in m.seen && m.seen[DocId(call.device, call.hash)] <= now
  }

  /** The group of a canonical identity is its own document, or nothing. */
  lemma GroupIsSlot(docs: Docs, m: Memory, device: string, hash: string)
    requires Simulates(docs, m) && IsCanonical(device)
    ensures GroupDocs(docs, device, hash) ==
      if DocId(device, hash) in docs then map[device := docs[DocId(device, hash)]] else map[]
  {
    hide IdentityGroup, IsCanonical;
    CanonicalIsOwnAlias(device);
    forall a | a in IdentityGroup(device) && DocId(a, hash) in docs ensures a == device {
      assert SameSlot(docs, m, DocId(a, hash));
      CanonicalIsOwnAlias(a);
      if a != device { IdentityGroupsDisjoint(a, device); }
    }
  }

  lemma RecordIsSlotUpdate(docs: Docs, m: Memory, device: string, hash: string, op: string)
    requires Simulates(docs, m) && IsCanonical(device) && DocId(device, hash) in docs
    ensures RecordDocs(docs, device, hash, op) ==
      docs[DocId(device, hash) := docs[DocId(device, hash)].(operation := Text(op))]
  {
    hide IdentityGroup, IsCanonical;
    GroupIsSlot(docs, m, device, hash);
    forall id | id in docs && id.hash == hash && id.device in IdentityGroup(device) ensures id == DocId(device, hash) {
      assert id.device in GroupDocs(docs, device, hash);
    }
    CanonicalIsOwnAlias(device);
  }

  /** The two calls that look at a reservation's age differently. */
  predicate Diverges(m: Memory, call: Call, now: int) {
    Expired(m, call, now) && (call.Reserve? || call.Has?)
  }

  lemma SlotAnswers(docs: Docs, m: Memory, call: Call, now: int, docs': Docs, answer: Answer)
    requires Simulates(docs, m) && Ordinary(call) && Serves(docs, call, now, docs', answer)
    ensures answer == MemServes(m, call, now).1 <==> !Diverges(m, call, now)
  {
    hide IdentityGroup, IsCanonical, GroupDocs, RecordDocs;
    GroupIsSlot(docs, m, call.device, call.hash);
    var id, g := DocId(call.device, call.hash), GroupDocs(docs, call.device, call.hash);
    assert SameSlot(docs, m, id);
    if id in docs {
      assert call.device in g;
      if call.Get? && !Expired(m, call, now) {
        assert Designates(g, OpOf(m, id));
        ReadIsDetermined(g, now, answer.result, Accepted(OpOf(m, id)));
      }
    }
  }

  lemma SlotStates(docs: Docs, m: Memory, call: Call, now: int, docs': Docs, answer: Answer)
    requires Simulates(docs, m) && Ordinary(call) && Serves(docs, call, now, docs', answer)
    requires !Diverges(m, call, now)
    ensures Simulates(docs', MemServes(m, call, now).0)
  {
    hide IdentityGroup, IsCanonical, GroupDocs, RecordDocs, ReadsAs;
    GroupIsSlot(docs, m, call.device, call.hash);
    var id, m', g := DocId(call.device, call.hash), MemServes(m, call, now).0, GroupDocs(docs, call.device, call.hash);
    assert SameSlot(docs, m, id);
    SlotAnswers(docs, m, call, now, docs', answer);
    if id in docs {
      assert call.device in g;
      if call.Record? { RecordIsSlotUpdate(docs, m, call.device, call.hash, call.op); }
    }
    forall other ensures SameSlot(docs', m', other) {
      assert SameSlot(docs, m, other);
    }
  }

  /**
   The durable and the in-memory store agree on a call exactly when it is not a reserve or a lookup of
   an expired slot: the durable one treats an expired document as still reserved.
   */
  lemma CallAgreesIff(docs: Docs, m: Memory, call: Call, now: int, docs': Docs, answer: Answer)
    requires Simulates(docs, m) && Ordinary(call) && Serves(docs, call, now, docs', answer)
    ensures answer == MemServes(m, call, now).1 <==> !Diverges(m, call, now)
    ensures !Diverges(m, call, now) ==> Simulates(docs', MemServes(m, call, now).0)
  {
    hide Serves, Simulates, Ordinary, MemServes;
    SlotAnswers(docs, m, call, now, docs', answer);
    if !Diverges(m, call, now) { SlotStates(docs, m, call, now, docs', answer); }
  }

  /** The durable store serving a sequence of calls, with nothing reaped. */
  ghost predicate Durable(docs: seq<Docs>, events: seq<Event>) {
    |docs| == |events| + 1 &&
    forall k :: 0 <= k < |events| ==> Serves(docs[k], events[k].call, events[k].now, docs[k + 1], events[k].answer)
  }

  /** Every call is ordinary and none reserves or looks up an expired slot. */
  predicate NothingExpires(m: Memory, events: seq<Event>)
    decreases |events|
  {
    events == [] ||
    (Ordinary(events[0].call) && !Diverges(m, events[0].call, events[0].now) &&
     NothingExpires(MemServes(m, events[0].call, events[0].now).0, events[1..]))
  }

  function MemAnswers(m: Memory, events: seq<Event>): seq<Answer>
    decreases |events|
  {
    if events == [] then [] else
      var step := MemServes(m, events[0].call, events[0].now);
      [step.1] + MemAnswers(step.0, events[1..])
  }

  /** Both stores give the same answers on every sequence of calls. */
  lemma {:induction false} StoresAgree(docs: seq<Docs>, m: Memory, events: seq<Event>)
    requires Durable(docs, events) && Simulates(docs[0], m) && NothingExpires(m, events)
    ensures |MemAnswers(m, events)| == |events|
    ensures forall k :: 0 <= k < |events| ==> MemAnswers(m, events)[k] == events[k].answer
    decreases |events|
  {
    hide Serves, Simulates, Ordinary, MemServes, Diverges;
    if events != [] {
      var e := events[0];
      CallAgreesIff(docs[0], m, e.call, e.now, docs[1], e.answer);
      StoresAgree(docs[1..], MemServes(m, e.call, e.now).0, events[1..]);
    }
  }

  lemma EmptyStoresAgree(docs: seq<Docs>, events: seq<Event>)
    requires Durable(docs, events) && docs[0] == map[] && NothingExpires(Memory(map[], map[]), events)
    ensures |MemAnswers(Memory(map[], map[]), events)| == |events|
    ensures forall k :: 0 <= k < |events| ==> MemAnswers(Memory(map[], map[]), events)[k] == events[k].answer
  {
    hide Serves, MemServes, MemAnswers, NothingExpires;
    StoresAgree(docs, Memory(map[], map[]), events);
  }

  /** The two stores do come apart: one moment after a reservation expired, on each call that looks at it. */
  lemma StoresDiverge(reserve: bool) returns (docs: Docs, m: Memory, call: Call, answer: Answer)
    ensures Simulates(docs, m) && Ordinary(call) && Diverges(m, call, 1) && (reserve <==> call.Reserve?)
    ensures Serves(docs, call, 1, docs, answer) && answer != MemServes(m, call, 1).1
  {
    hide IdentityGroup, GroupDocs;
    var device, hash := "soft:x", "h";
    var id := DocId(device, hash);
    docs, m := map[id := Reservation(Some(0), NoOperation)], Memory(map[id := 0], map[]);
    call := if reserve then Call.Reserve(device, hash, 1) else Call.Has(device, hash);
    answer := Flag(!reserve);
    assert !IsAttested(device) by { assert device[0] != ATTEST_PREFIX[0]; }
    forall other ensures SameSlot(docs, m, other) {}
    GroupIsSlot(docs, m, device, hash);
    assert device in GroupDocs(docs, device, hash);
  }
}
