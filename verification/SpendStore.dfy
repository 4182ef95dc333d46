/**
 Durable spend reservations over alias groups, and the reference to the accepted provider operation
 (internal/firestore/store.go:70-87, 210-346). A transaction body may run on any number of snapshots
 before one run commits; the variables it captures outlive an aborted run.
 */
module SpendStore {
  import opened KeyId
  import opened Wrappers
  import opened Counters

  const MAX_OPERATION_LENGTH := 2048

  datatype OperationField = NoOperation | NotText | Text(ref: string)

  /** `expires` is None when the field is missing or is not a time. */
  datatype Reservation = Reservation(expires: Option<int>, operation: OperationField)

  /** The document id joins identity and image hash with a colon; see JoinedIdsAreDistinct. */
  datatype DocId = DocId(device: string, hash: string)

  type Docs = map<DocId, Reservation>

  type AliasGroup = map<string, Reservation>

  datatype OpResult = Refused | Accepted(operation: string)

  // ---- identities --------------------------------------------------------------------

  const ATTEST_PREFIX := "attest:"

  predicate IsAttested(device: string) {
    |device| >= 7 && device[..7] == ATTEST_PREFIX
  }

  ghost function IdentityGroup(device: string): set<string> {
    if IsAttested(device) then set a | a in Group(device[7..]) :: ATTEST_PREFIX + a else {device}
  }

  /** Identities the handler builds: a canonical key id, or anything that is not an attested one. */
  predicate IsCanonical(device: string) {
    IsAttested(device) ==> CanonicalKeyId(device[7..]) == Some(device[7..])
  }

  lemma CanonicalIsOwnAlias(device: string)
    requires IsCanonical(device)
    ensures device in IdentityGroup(device)
  {
    hide Group, CanonicalKeyId;
    if IsAttested(device) {
      CanonicalInGroup(device[7..]);
      assert device == ATTEST_PREFIX + device[7..];
    }
  }

  lemma AttestedAliases(device: string, s: string)
    requires IsAttested(device)
    ensures s in IdentityGroup(device) <==> IsAttested(s) && s[7..] in Group(device[7..])
  {
    hide Group;
    if IsAttested(s) { assert s == ATTEST_PREFIX + s[7..]; }
  }

  /** Reservations of different principals never share a document. */
  lemma IdentityGroupsDisjoint(a: string, b: string)
    requires IsCanonical(a) && IsCanonical(b) && a != b
    ensures IdentityGroup(a) !! IdentityGroup(b)
  {
    hide Group, CanonicalKeyId;
    forall s ensures !(s in IdentityGroup(a) && s in IdentityGroup(b)) {
      if IsAttested(a) { AttestedAliases(a, s); }
      if IsAttested(b) { AttestedAliases(b, s); }
      if IsAttested(a) && IsAttested(b) {
        assert a == ATTEST_PREFIX + a[7..] && b == ATTEST_PREFIX + b[7..];
        GroupsAreDisjoint(a[7..], b[7..]);
      }
    }
  }

  lemma JoinedIdsAreDistinct(a: string, h: string, b: string, k: string)
    requires |h| == |k| && a + ":" + h == b + ":" + k
    ensures a == b && h == k
  {
    var s, t := a + ":" + h, b + ":" + k;
    assert a == s[..|a|] && b == t[..|b|];
    assert h == s[|a| + 1..] && k == t[|b| + 1..];
  }

  method IdentityAliases(device: string) returns (aliases: set<string>)
    ensures aliases == IdentityGroup(device)
  {
    hide Group;
    if !IsAttested(device) { return {device}; }
    var keys := KeyAliases(device[7..]);
    return set a | a in keys :: ATTEST_PREFIX + a;
  }

  // ---- one alias group as a value ------------------------------------------------------

  ghost function GroupDocs(docs: Docs, device: string, hash: string): AliasGroup {
    map a | a in IdentityGroup(device) && DocId(a, hash) in docs :: docs[DocId(a, hash)]
  }

  predicate Live(d: Reservation, now: int) {
    d.expires.Some? && d.expires.value > now
  }

  predicate WellFormed(f: OperationField) {
    f == NoOperation || (f.Text? && 0 < |f.ref| <= MAX_OPERATION_LENGTH)
  }

  /** A document recovery may trust. */
  predicate Readable(d: Reservation, now: int) { Live(d, now) && WellFormed(d.operation) }

  predicate AllReadable(g: AliasGroup, now: int) {
    forall a :: a in g ==> Readable(g[a], now)
  }

  /** No document of the group names an operation other than `op`. */
  predicate Carries(g: AliasGroup, op: string) {
    forall a :: a in g && g[a].operation.Text? ==> g[a].operation.ref == op
  }

  /** The one operation a group names, or "" when it names none. */
  ghost predicate Designates(g: AliasGroup, op: string) {
    Carries(g, op) && (op == "" <==> forall a :: a in g ==> g[a].operation == NoOperation)
  }

  ghost predicate ReadsAs(g: AliasGroup, now: int, r: OpResult) {
    if g == map[] then r == Accepted("")
    else match r {
      case Accepted(op) => AllReadable(g, now) && Designates(g, op)
      case Refused => !AllReadable(g, now) || !exists op :: Designates(g, op)
    }
  }

  ghost predicate MayRecord(g: AliasGroup, now: int, op: string) {
    g != map[] && AllReadable(g, now) && Carries(g, op)
  }

  predicate ValidReference(op: string) { 0 < |op| <= MAX_OPERATION_LENGTH }

  /** Two reads of one group cannot disagree, whatever order they visit it in. */
  lemma ReadIsDetermined(g: AliasGroup, now: int, r: OpResult, r': OpResult)
    requires ReadsAs(g, now, r) && ReadsAs(g, now, r')
    ensures r == r'
  {
    if r.Accepted? && r'.Accepted? && g != map[] {
      if a :| a in g && g[a].operation.Text? {
        assert r.operation == g[a].operation.ref == r'.operation;
      } else {
        assert forall a :: a in g ==> Readable(g[a], now);
      }
    }
  }

  // ---- transaction bodies ---------------------------------------------------------------

  /** `captured` is what an earlier, aborted run left in the captured variable. */
  method ReserveBody(all: AliasGroup, captured: bool) returns (isFresh: bool)
    ensures isFresh <==> all == map[]
  {
    isFresh := captured;
    isFresh := false;
    if |all| > 0 { return; }
    isFresh := true;
  }

  /** One run over the fetched documents, in any order. */
  method OperationBody(all: AliasGroup, record: string, now: int, captured: string) returns (r: OpResult)
    ensures record == "" ==> ReadsAs(all, now, r)
    ensures record != "" ==> r == if MayRecord(all, now, record) then Accepted(record) else Refused
  {
    var operation := captured;
    operation := "";
    if |all| == 0 {
      return if record != "" then Refused else Accepted("");
    }
    var pending := all.Keys;
    while pending != {}
      invariant pending <= all.Keys
      invariant forall a :: a in all && a !in pending ==> Readable(all[a], now)
      invariant forall a :: a in all && a !in pending && all[a].operation.Text? ==> all[a].operation.ref == operation
      invariant operation == "" <==> forall a :: a in all && a !in pending ==> all[a].operation == NoOperation
    {
      var a :| a in pending;
      pending := pending - {a};
      var fields := all[a];
      if !Live(fields, now) { return Refused; }
      if fields.operation != NoOperation {
        if !WellFormed(fields.operation) { return Refused; }
        if operation != "" && operation != fields.operation.ref {
          return Refused;
        }
        operation := fields.operation.ref;
      }
    }
    assert Designates(all, operation);
    if record == "" { return Accepted(operation); }
    if operation != "" && operation != record { return Refused; }
    return Accepted(record);
  }

  // ---- the store -------------------------------------------------------------------------

  /** The group of `device` for one image, with `op` recorded on every document it has. */
  ghost function RecordDocs(docs: Docs, device: string, hash: string, op: string): Docs {
    map id | id in docs ::
      if id.hash == hash && id.device in IdentityGroup(device) then docs[id].(operation := Text(op)) else docs[id]
  }

  ghost predicate Records(docs: Docs, device: string, hash: string, op: string, now: int) {
    ValidReference(op) && MayRecord(GroupDocs(docs, device, hash), now, op)
  }

  lemma InGroupIff(docs: Docs, device: string, hash: string)
    ensures forall id :: id in docs && id.hash == hash ==>
      (id.device in IdentityGroup(device) <==> id.device in GroupDocs(docs, device, hash))
    ensures forall a :: a in GroupDocs(docs, device, hash) ==> DocId(a, hash) in docs
  {
    hide IdentityGroup;
    forall id | id in docs && id.hash == hash
      ensures id.device in IdentityGroup(device) <==> id.device in GroupDocs(docs, device, hash)
    {
      assert id == DocId(id.device, hash);
    }
  }

  class FirestoreSpendStore {
    var docs: Docs

    static method GetAll(snapshot: Docs, device: string, hash: string) returns (all: AliasGroup)
      ensures all == GroupDocs(snapshot, device, hash)
    {
      hide IdentityGroup;
      var aliases := IdentityAliases(device);
      all := map a | a in aliases && DocId(a, hash) in snapshot :: snapshot[DocId(a, hash)];
    }

    /** `aborted` are the snapshots of runs that did not commit. */
    method ReserveOcr(device: string, hash: string, now: int, ttl: int, aborted: seq<Docs>) returns (isFresh: bool)
      modifies this
      ensures isFresh <==> GroupDocs(old(docs), device, hash) == map[]
      ensures docs ==
        if isFresh then old(docs)[DocId(device, hash) := Reservation(Some(now + ttl), NoOperation)] else old(docs)
    {
      hide GroupDocs;
      isFresh := false;
      for i := 0 to |aborted|
        invariant docs == old(docs)
      {
        var stale := GetAll(aborted[i], device, hash);
        isFresh := ReserveBody(stale, isFresh);
      }
      var all := GetAll(docs, device, hash);
      isFresh := ReserveBody(all, isFresh);
      if isFresh { docs := docs[DocId(device, hash) := Reservation(Some(now + ttl), NoOperation)]; }
    }

    /** Reads the documents one by one; an expired document still counts. */
    method HasOcrReservation(device: string, hash: string) returns (has: bool)
      ensures has <==> GroupDocs(docs, device, hash) != map[]
    {
      hide IdentityGroup;
      var aliases := IdentityAliases(device);
      var pending := aliases;
      while pending != {}
        invariant pending <= aliases
        invariant forall a :: a in aliases && a !in pending ==> DocId(a, hash) !in docs
      {
        var a :| a in pending;
        pending := pending - {a};
        if DocId(a, hash) in docs {
          assert a in GroupDocs(docs, device, hash);
          return true;
        }
      }
      return false;
    }

    method OcrOperation(device: string, hash: string, record: string, now: int, aborted: seq<Docs>)
      returns (r: OpResult)
      requires record != "" ==> ValidReference(record)
      modifies this
      ensures record == "" ==> docs == old(docs) && ReadsAs(GroupDocs(docs, device, hash), now, r)
      ensures record != "" ==> r == if Records(old(docs), device, hash, record, now) then Accepted(record) else Refused
      ensures record != "" ==> docs == if r == Refused then old(docs) else RecordDocs(old(docs), device, hash, record)
    {
      hide IdentityGroup, ReadsAs, MayRecord;
      var captured := "";
      for i := 0 to |aborted|
        invariant docs == old(docs)
      {
        var stale := GetAll(aborted[i], device, hash);
        var ignored := OperationBody(stale, record, now, captured);
        if ignored.Accepted? { captured := ignored.operation; }
      }
      var all := GetAll(docs, device, hash);
      r := OperationBody(all, record, now, captured);
      if record != "" && r.Accepted? {
        WriteOperation(device, hash, record);
      }
    }

    method WriteOperation(device: string, hash: string, record: string)
      modifies this
      ensures docs == RecordDocs(old(docs), device, hash, record)
    {
      hide IdentityGroup;
      var all := GetAll(docs, device, hash);
      InGroupIff(docs, device, hash);
      hide GroupDocs;
      var pending := all.Keys;
      while pending != {}
        invariant pending <= all.Keys && docs.Keys == old(docs).Keys
        invariant forall id :: id in docs ==>
          docs[id] ==
            if id.hash == hash && id.device in all && id.device !in pending
            then old(docs)[id].(operation := Text(record)) else old(docs)[id]
      {
        var a :| a in pending;
        pending := pending - {a};
        docs := docs[DocId(a, hash) := docs[DocId(a, hash)].(operation := Text(record))];
      }
    }

    method RecordOcrOperation(device: string, hash: string, operation: string, now: int, aborted: seq<Docs>)
      returns (r: OpResult)
      modifies this
      ensures r == if Records(old(docs), device, hash, operation, now) then Accepted(operation) else Refused
      ensures docs == if r == Refused then old(docs) else RecordDocs(old(docs), device, hash, operation)
    {
      if operation == "" || |operation| > MAX_OPERATION_LENGTH { return Refused; }
      r := OcrOperation(device, hash, operation, now, aborted);
    }

    method GetOcrOperation(device: string, hash: string, now: int, aborted: seq<Docs>) returns (r: OpResult)
      modifies this
      ensures docs == old(docs) && ReadsAs(GroupDocs(docs, device, hash), now, r)
    {
      r := OcrOperation(device, hash, "", now, aborted);
    }

    method ReleaseOcr(device: string, hash: string)
      modifies this
      ensures docs == old(docs) - {DocId(device, hash)}
    {
      docs := docs - {DocId(device, hash)};
    }
  }

  // ---- whole call sequences ----------------------------------------------------------------

  datatype Call =
    | Reserve(device: string, hash: string, ttl: int)
    | Has(device: string, hash: string)
    | Record(device: string, hash: string, op: string)
    | Get(device: string, hash: string)
    | Release(device: string, hash: string)

  datatype Answer = Flag(value: bool) | Operation(result: OpResult) | Done

  /** One call as the class above serves it. */
  ghost predicate Serves(docs: Docs, call: Call, now: int, docs': Docs, answer: Answer) {
    var g := GroupDocs(docs, call.device, call.hash);
    match call
    case Reserve(device, hash, ttl) =>
      answer == Flag(g == map[]) &&
      docs' == if g == map[] then docs[DocId(device, hash) := Reservation(Some(now + ttl), NoOperation)] else docs
    case Has(device, hash) => answer == Flag(g != map[]) && docs' == docs
    case Record(device, hash, op) =>
      if Records(docs, device, hash, op, now)
      then answer == Operation(Accepted(op)) && docs' == RecordDocs(docs, device, hash, op)
      else answer == Operation(Refused) && docs' == docs
    case Get(device, hash) => answer.Operation? && ReadsAs(g, now, answer.result) && docs' == docs
    case Release(device, hash) => answer == Done && docs' == docs - {DocId(device, hash)}
  }

  /** Time-to-live reaping removes documents in any number, and adds or changes none. */
  predicate Reaps(docs: Docs, docs': Docs) {
    forall id :: id in docs' ==> id in docs && docs'[id] == docs[id]
  }

  /** Every document of the group names exactly `op`. */
  predicate Fixed(g: AliasGroup, op: string) {
    forall a :: a in g ==> g[a].operation == Text(op)
  }

  lemma ReapKeepsFixed(docs: Docs, docs': Docs, device: string, hash: string, op: string)
    requires Reaps(docs, docs') && Fixed(GroupDocs(docs, device, hash), op)
    ensures Fixed(GroupDocs(docs', device, hash), op)
  {
    hide IdentityGroup;
    var g, g' := GroupDocs(docs, device, hash), GroupDocs(docs', device, hash);
    forall a | a in g' ensures a in g && g'[a] == g[a] {}
  }

  lemma RecordFixes(docs: Docs, device: string, hash: string, op: string)
    ensures Fixed(GroupDocs(RecordDocs(docs, device, hash, op), device, hash), op)
  {
    hide IdentityGroup;
  }

  /** Calls on other slots leave a group's documents alone. */
  lemma OtherSlotsUntouched(docs: Docs, call: Call, now: int, docs': Docs, answer: Answer, device: string, hash: string)
    requires Serves(docs, call, now, docs', answer) && IsCanonical(device) && IsCanonical(call.device)
    requires call.device != device || call.hash != hash
    ensures GroupDocs(docs', device, hash) == GroupDocs(docs, device, hash)
  {
    hide IdentityGroup, ReadsAs, Records, IsCanonical, GroupDocs;
    CanonicalIsOwnAlias(call.device);
    if call.device != device { IdentityGroupsDisjoint(call.device, device); }
    assert forall a :: a in IdentityGroup(device) ==> !(hash == call.hash && a in IdentityGroup(call.device));
    SameGroup(docs, docs', device, hash);
  }

  lemma SameGroup(docs: Docs, docs': Docs, device: string, hash: string)
    requires forall a :: a in IdentityGroup(device) ==> (DocId(a, hash) in docs <==> DocId(a, hash) in docs')
    requires forall a :: a in IdentityGroup(device) && DocId(a, hash) in docs ==>
      docs'[DocId(a, hash)] == docs[DocId(a, hash)]
    ensures GroupDocs(docs', device, hash) == GroupDocs(docs, device, hash)
  {
    hide IdentityGroup;
  }

  /** Nothing but emptying the group changes an operation once it is recorded. */
  lemma CallKeepsFixed(docs: Docs, call: Call, now: int, docs': Docs, answer: Answer, device: string, hash: string,
                       op: string)
    requires Serves(docs, call, now, docs', answer) && IsCanonical(device) && IsCanonical(call.device)
    requires GroupDocs(docs, device, hash) != map[] && Fixed(GroupDocs(docs, device, hash), op)
    ensures Fixed(GroupDocs(docs', device, hash), op)
    ensures call == Get(device, hash) ==> answer == Operation(Refused) || answer == Operation(Accepted(op))
    ensures call.Record? && call.device == device && call.hash == hash && answer != Operation(Refused) ==> call.op == op
    ensures call.Reserve? && call.device == device && call.hash == hash ==> answer == Flag(false)
  {
    hide IdentityGroup, IsCanonical;
    var g := GroupDocs(docs, device, hash);
    if call.device != device || call.hash != hash {
      OtherSlotsUntouched(docs, call, now, docs', answer, device, hash);
    } else {
      var a :| a in g;
      assert g[a].operation == Text(op);
      if call.Record? { RecordFixes(docs, device, hash, call.op); }
      if call.Release? { ReapKeepsFixed(docs, docs', device, hash, op); }
    }
  }

  datatype Event = Event(call: Call, now: int, answer: Answer)

  /** Calls one after another; before each, some expired documents may have been reaped. */
  ghost predicate History(docs: seq<Docs>, reaped: seq<Docs>, events: seq<Event>) {
    |docs| == |events| + 1 && |reaped| == |events| &&
    forall k :: 0 <= k < |events| ==> Happens(docs[k], reaped[k], events[k], docs[k + 1])
  }

  ghost predicate Happens(before: Docs, reaped: Docs, e: Event, after: Docs) {
    Reaps(before, reaped) && IsCanonical(e.call.device) && Serves(reaped, e.call, e.now, after, e.answer)
  }

  /** While a group lives, a recorded operation is its operation. */
  lemma {:induction false} RecordedStaysFixed(docs: seq<Docs>, reaped: seq<Docs>, events: seq<Event>, i: nat, j: nat,
        device: string, hash: string, op: string)
    requires History(docs, reaped, events) && i < j < |events| && IsCanonical(device)
    requires events[i].call == Call.Record(device, hash, op) && events[i].answer == Operation(Accepted(op))
    requires forall k :: i < k <= j ==> GroupDocs(reaped[k], device, hash) != map[]
    ensures Fixed(GroupDocs(reaped[j], device, hash), op)
  {
    hide IdentityGroup, IsCanonical, ReadsAs, MayRecord, Fixed, GroupDocs, Reaps;
    assert Happens(docs[j - 1], reaped[j - 1], events[j - 1], docs[j]);
    assert Happens(docs[j], reaped[j], events[j], docs[j + 1]);
    if j == i + 1 {
      RecordFixes(reaped[i], device, hash, op);
    } else {
      RecordedStaysFixed(docs, reaped, events, i, j - 1, device, hash, op);
      CallKeepsFixed(reaped[j - 1], events[j - 1].call, events[j - 1].now, docs[j], events[j - 1].answer, device, hash,
                     op);
    }
    ReapKeepsFixed(docs[j], reaped[j], device, hash, op);
  }

  /** Write-once: a later read returns the recorded operation or nothing; a different record is refused. */
  lemma OperationIsWriteOnce(docs: seq<Docs>, reaped: seq<Docs>, events: seq<Event>, i: nat, j: nat, device: string,
                             hash: string, op: string)
    requires History(docs, reaped, events) && i < j < |events| && IsCanonical(device)
    requires events[i].call == Call.Record(device, hash, op) && events[i].answer == Operation(Accepted(op))
    requires forall k :: i < k <= j ==> GroupDocs(reaped[k], device, hash) != map[]
    ensures events[j].call == Get(device, hash) ==>
      events[j].answer == Operation(Refused) || events[j].answer == Operation(Accepted(op))
    ensures forall other :: events[j].call == Call.Record(device, hash, other) && other != op ==>
      events[j].answer == Operation(Refused)
    ensures forall ttl :: events[j].call == Reserve(device, hash, ttl) ==> events[j].answer == Flag(false)
  {
    hide IdentityGroup, IsCanonical, ReadsAs, MayRecord, Fixed, GroupDocs, Reaps;
    RecordedStaysFixed(docs, reaped, events, i, j, device, hash, op);
    assert Happens(docs[j], reaped[j], events[j], docs[j + 1]);
    CallKeepsFixed(reaped[j], events[j].call, events[j].now, docs[j + 1], events[j].answer, device, hash, op);
  }
}
