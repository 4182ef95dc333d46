/**
 The provider steps of a request are the client's scan: which uploads count as refused, accepted or
 unclear, what the request is left with, and what may still be billed
 (cmd/ocr/main.go:537-570, internal/azure/ocr.go:155-272).
 */
module ScanProvider {
  import opened Wrappers
  import opened ScanProtocol
  import opened ScanSafety
  import opened ScanSuccess
  import opened Coalescer
  import A = Provider
  import SpendStore

  /** What the request learns from an upload. */
  function ResponseTo(client: A.Client, upload: A.Upload): Response {
    if upload.NotBuilt? || (upload.Answered? && upload.status in A.REJECTIONS) then Refusal
    else if client.Accepted(upload) then Acceptance(upload.location.text)
    else Unclear
  }

  /** The actions of one execution: nothing is sent when no request could be built. */
  function Actions(client: A.Client, upload: A.Upload, soft: bool, recordFails: bool, recorded: bool, polled: bool)
    : seq<Action>
  {
    (if upload.NotBuilt? then [] else [Send]) + [Respond(ResponseTo(client, upload))] +
    if client.Accepted(upload) then AfterAcceptance(soft, recordFails, recorded, polled) else []
  }

  function AfterAcceptance(soft: bool, recordFails: bool, recorded: bool, polled: bool): seq<Action> {
    if soft then [Action.Poll(polled)]
    else [RecordOperation(recordFails, !recordFails)] + if recorded then [NoteOperation] + [Action.Poll(polled)] else []
  }

  /** Request `r` takes the actions one after the other, with nobody in between. */
  function Performed(s: State, r: nat, actions: seq<Action>): Option<State>
    decreases |actions|
  {
    if actions == [] then Some(s)
    else
      match Next(s, Act(r, actions[0]))
      case None => None
      case Some(s') => Performed(s', r, actions[1..])
  }

  predicate RefusedStatus(upload: A.Upload) {
    upload.Answered? && upload.status in [400, 401, 403, 404, 405, 413, 415, 422, 429]
  }

  lemma PerformedFirst(s: State, r: nat, action: Action, rest: seq<Action>)
    requires Next(s, Act(r, action)).Some?
    ensures Performed(s, r, [action] + rest) == Performed(Next(s, Act(r, action)).value, r, rest)
  {
    hide Next;
    assert ([action] + rest)[1..] == rest;
  }

  lemma PerformedLast(s: State, r: nat, action: Action)
    ensures Performed(s, r, [action]) == Next(s, Act(r, action))
  {
    hide Next;
  }

  /** What request `r` is left with; nothing but its phase and its submission changed. */
  predicate LeftWith(s: State, r: nat, s': Option<State>, o: Answer, sub: Submission)
    requires r in s.reqs
  {
    s' == Some(s.(reqs := s.reqs[r := s.reqs[r].(phase := Executing(InnerReturning(o)), sub := sub)]))
  }

  lemma RefusalLeaves(s: State, r: nat)
    requires r in s.reqs && s.reqs[r].phase == Executing(Sending)
    ensures LeftWith(s, r, Next(s, Act(r, Respond(Refusal))), Failure(NOT_SUBMITTED), s.reqs[r].sub)
  {
  }

  lemma SentLeaves(s: State, r: nat)
    requires r in s.reqs && s.reqs[r].phase == Executing(Sending)
    ensures Next(s, Act(r, Send)) == Some(Put(s, r, s.reqs[r].(phase := Executing(Submitting), sub := InDoubt)))
  {
  }

  lemma ResponseLeaves(s: State, r: nat, response: Response)
    requires r in s.reqs && s.reqs[r].phase == Executing(Submitting) && !response.Acceptance?
    ensures LeftWith(s, r, Next(s, Act(r, Respond(response))),
      if response.Refusal? then Failure(NOT_SUBMITTED) else Failure(FAILED),
      if response.Refusal? then Rejected else s.reqs[r].sub)
  {
  }

  /** The two steps of a request that could be built. */
  lemma SentAndAnswered(s: State, r: nat, response: Response, rest: seq<Action>)
    requires r in s.reqs && s.reqs[r].phase == Executing(Sending)
    requires response.Acceptance? ==> MayName(s.ops, response.op, s.reqs[r].slot.image)
    ensures var sent := Put(s, r, s.reqs[r].(phase := Executing(Submitting), sub := InDoubt));
      Next(sent, Act(r, Respond(response))).Some? &&
      Performed(s, r, [Send] + ([Respond(response)] + rest)) ==
        Performed(Next(sent, Act(r, Respond(response))).value, r, rest)
  {
    SentLeaves(s, r);
    var sent := Next(s, Act(r, Send)).value;
    if response.Acceptance? { AcceptanceLeaves(sent, r, response.op); } else { ResponseLeaves(sent, r, response); }
    hide Next, MayName;
    PerformedFirst(s, r, Send, [Respond(response)] + rest);
    PerformedFirst(sent, r, Respond(response), rest);
  }

  /**
   An upload that is not accepted leaves the request with an error. It says "not submitted", and the image is
   certainly not billed, exactly when no request was built or the answer is one of nine statuses.
   */
  lemma WithoutAcceptance(s: State, r: nat, client: A.Client, upload: A.Upload, fails: bool, recorded: bool,
                          polled: bool)
    requires r in s.reqs && s.reqs[r].phase == Executing(Sending) && s.reqs[r].sub == Unsent
    requires !client.Accepted(upload)
    ensures var s' := Performed(s, r, Actions(client, upload, s.reqs[r].soft, fails, recorded, polled));
      s'.Some? && r in s'.value.reqs && s'.value == s.(reqs := s.reqs[r := s'.value.reqs[r]]) &&
      var q := s'.value.reqs[r];
      Outgoing(q.phase).Some? && Outgoing(q.phase).value.err.Some? && Outgoing(q.phase).value.result == None &&
      (Outgoing(q.phase).value.err == Some(NOT_SUBMITTED) <==> upload.NotBuilt? || RefusedStatus(upload)) &&
      (Billable(q) <==> !upload.NotBuilt? && !RefusedStatus(upload))
  {
    hide Next, A.ValidOperation, MayName, MayRecord;
    var response := ResponseTo(client, upload);
    var actions := Actions(client, upload, s.reqs[r].soft, fails, recorded, polled);
    if upload.NotBuilt? {
      assert actions == [Respond(Refusal)];
      PerformedLast(s, r, Respond(Refusal));
      RefusalLeaves(s, r);
    } else {
      assert actions == [Send] + ([Respond(response)] + []);
      SentAndAnswered(s, r, response, []);
      var sent := Put(s, r, s.reqs[r].(phase := Executing(Submitting), sub := InDoubt));
      ResponseLeaves(sent, r, response);
    }
  }

  lemma AcceptanceLeaves(s: State, r: nat, op: string)
    requires r in s.reqs && s.reqs[r].phase == Executing(Submitting) && MayName(s.ops, op, s.reqs[r].slot.image)
    ensures var q := s.reqs[r];
      Next(s, Act(r, Respond(Acceptance(op)))) ==
        Some(Put(s, r, q.(phase := Executing(if q.soft then Polling(op) else Recording(op)), sub := Accepted(op)))
             .(ops := s.ops[op := q.slot.image]))
  {
  }

  lemma RecordLeaves(s: State, r: nat, op: string, fails: bool)
    requires r in s.reqs && s.reqs[r].phase == Executing(Recording(op))
    ensures var (q, may) := (s.reqs[r], MayRecord(s, s.reqs[r].slot, op) && !fails);
      Next(s, Act(r, RecordOperation(fails, !fails))) ==
        Some(Put(s, r, q.(phase := Executing(if may then Noting(op) else InnerReturning(Failure(FAILED)))))
             .(store := if may then s.store[q.slot := s.store[q.slot].(op := op)] else s.store))
  {
    hide SpendStore.ValidReference;
  }

  lemma NoteLeaves(s: State, r: nat, op: string)
    requires r in s.reqs && s.reqs[r].phase == Executing(Noting(op))
    ensures var (q, s') := (s.reqs[r], Next(s, Act(r, NoteOperation)));
      s'.Some? && s'.value.reqs == s.reqs[r := q.(phase := Executing(Polling(op)))] &&
      s'.value.store == s.store && s'.value.ops == s.ops
  {
  }

  lemma PollLeaves(s: State, r: nat, op: string, polled: bool)
    requires r in s.reqs && s.reqs[r].phase == Executing(Polling(op))
    requires op in s.ops && s.ops[op] == s.reqs[r].slot.image
    ensures LeftWith(s, r, Next(s, Act(r, Action.Poll(polled))),
      if polled then Outcome(Some(s.reqs[r].slot.image), None) else Failure(FAILED), s.reqs[r].sub)
  {
  }

  /** The provider took the image of request `r` and named `op`. */
  function AfterAccepted(s: State, r: nat, op: string): State
    requires r in s.reqs
  {
    var q := s.reqs[r];
    Put(s, r, q.(phase := Executing(if q.soft then Polling(op) else Recording(op)), sub := Accepted(op)))
    .(ops := s.ops[op := q.slot.image])
  }

  lemma SentAndAccepted(s: State, r: nat, op: string, rest: seq<Action>)
    requires r in s.reqs && s.reqs[r].phase == Executing(Sending) && MayName(s.ops, op, s.reqs[r].slot.image)
    ensures Performed(s, r, [Send] + ([Respond(Acceptance(op))] + rest)) == Performed(AfterAccepted(s, r, op), r, rest)
  {
    hide Next, Performed;
    SentAndAnswered(s, r, Acceptance(op), rest);
    var q := s.reqs[r];
    var sent := Put(s, r, q.(phase := Executing(Submitting), sub := InDoubt));
    AcceptanceLeaves(sent, r, op);
    hide MayName;
    assert sent.reqs[r := AfterAccepted(s, r, op).reqs[r]] == s.reqs[r := AfterAccepted(s, r, op).reqs[r]];
  }

  /** After the scan of request `r`: what is recorded, what may be billed, and what it is left with. */
  predicate Scanned(s: State, r: nat, s': Option<State>, op: string, recorded: bool, polled: bool)
    requires r in s.reqs && (recorded ==> s.reqs[r].slot in s.store)
  {
    var q := s.reqs[r];
    s'.Some? && r in s'.value.reqs && s'.value.ops == s.ops[op := q.slot.image] &&
    (s'.value.store == if !q.soft && recorded then s.store[q.slot := s.store[q.slot].(op := op)] else s.store) &&
    s'.value.reqs[r].sub == Accepted(op) &&
    var o := Outgoing(s'.value.reqs[r].phase);
    o.Some? && o.value.err != Some(NOT_SUBMITTED) && (o.value.err == None <==> (q.soft || recorded) && polled) &&
    o.value.result == if (q.soft || recorded) && polled then Some(q.slot.image) else None
  }

  lemma SoftScanned(s: State, r: nat, op: string, fails: bool, recorded: bool, polled: bool)
    requires r in s.reqs && s.reqs[r].soft && (recorded ==> s.reqs[r].slot in s.store)
    ensures var s' := Performed(AfterAccepted(s, r, op), r, AfterAcceptance(true, fails, recorded, polled));
      Scanned(s, r, s', op, recorded, polled)
  {
    SoftLeaves(AfterAccepted(s, r, op), r, op, fails, recorded, polled);
    hide Performed, AfterAcceptance;
  }

  lemma AttestedScanned(s: State, r: nat, op: string, fails: bool, polled: bool)
    requires r in s.reqs && !s.reqs[r].soft
    ensures var recorded := MayRecord(s, s.reqs[r].slot, op) && !fails;
      var s' := Performed(AfterAccepted(s, r, op), r, AfterAcceptance(false, fails, recorded, polled));
      Scanned(s, r, s', op, recorded, polled)
  {
    AttestedLeaves(AfterAccepted(s, r, op), r, op, fails, polled);
    hide Performed, AfterAcceptance, SpendStore.ValidReference;
  }

  /**
   An accepted upload may be billed from then on. An attested request records its operation before it polls,
   and only then; it succeeds, with the analysis of its image, exactly when both go well.
   */
  lemma WithAcceptance(s: State, r: nat, client: A.Client, upload: A.Upload, fails: bool, polled: bool)
    requires r in s.reqs && s.reqs[r].phase == Executing(Sending) && s.reqs[r].sub == Unsent
    requires client.Accepted(upload) && MayName(s.ops, upload.location.text, s.reqs[r].slot.image)
    ensures var q, op := s.reqs[r], upload.location.text;
      var recorded := MayRecord(s, q.slot, op) && !fails;
      var s' := Performed(s, r, Actions(client, upload, q.soft, fails, recorded, polled));
      Scanned(s, r, s', op, recorded, polled)
  {
    hide Performed, AfterAcceptance, Scanned, AfterAccepted, A.ValidOperation;
    var q, op := s.reqs[r], upload.location.text;
    var recorded := MayRecord(s, q.slot, op) && !fails;
    var rest := AfterAcceptance(q.soft, fails, recorded, polled);
    assert Actions(client, upload, q.soft, fails, recorded, polled) == [Send] + ([Respond(Acceptance(op))] + rest);
    hide Actions, MayName;
    SentAndAccepted(s, r, op, rest);
    if q.soft { SoftScanned(s, r, op, fails, recorded, polled); } else { AttestedScanned(s, r, op, fails, polled); }
  }

  lemma SoftLeaves(s: State, r: nat, op: string, fails: bool, recorded: bool, polled: bool)
    requires r in s.reqs && s.reqs[r].phase == Executing(Polling(op))
    requires op in s.ops && s.ops[op] == s.reqs[r].slot.image
    ensures LeftWith(s, r, Performed(s, r, AfterAcceptance(true, fails, recorded, polled)),
      if polled then Outcome(Some(s.reqs[r].slot.image), None) else Failure(FAILED), s.reqs[r].sub)
  {
    PerformedLast(s, r, Action.Poll(polled));
    PollLeaves(s, r, op, polled);
    hide Next;
  }

  /** Record, then poll what was recorded. */
  lemma AttestedLeaves(s: State, r: nat, op: string, fails: bool, polled: bool)
    requires r in s.reqs && s.reqs[r].phase == Executing(Recording(op))
    requires op in s.ops && s.ops[op] == s.reqs[r].slot.image
    ensures var (q, recorded) := (s.reqs[r], MayRecord(s, s.reqs[r].slot, op) && !fails);
      var s' := Performed(s, r, AfterAcceptance(false, fails, recorded, polled));
      s'.Some? && r in s'.value.reqs && s'.value.ops == s.ops && s'.value.reqs[r].sub == q.sub &&
      s'.value.store == (if recorded then s.store[q.slot := s.store[q.slot].(op := op)] else s.store) &&
      s'.value.reqs[r].phase == Executing(InnerReturning(
        if recorded && polled then Outcome(Some(q.slot.image), None) else Failure(FAILED)))
  {
    var q, recorded := s.reqs[r], MayRecord(s, s.reqs[r].slot, op) && !fails;
    hide Next, MayRecord;
    RecordLeaves(s, r, op, fails);
    var done := Next(s, Act(r, RecordOperation(fails, !fails))).value;
    var rest := if recorded then [NoteOperation] + [Action.Poll(polled)] else [];
    PerformedFirst(s, r, RecordOperation(fails, !fails), rest);
    if recorded { NotedLeaves(done, r, op, polled); }
  }

  /** What is recorded is noted on the instance, then polled. */
  lemma NotedLeaves(s: State, r: nat, op: string, polled: bool)
    requires r in s.reqs && s.reqs[r].phase == Executing(Noting(op))
    requires op in s.ops && s.ops[op] == s.reqs[r].slot.image
    ensures var s' := Performed(s, r, [NoteOperation] + [Action.Poll(polled)]);
      s'.Some? && r in s'.value.reqs && s'.value.ops == s.ops && s'.value.store == s.store &&
      s'.value.reqs[r].sub == s.reqs[r].sub &&
      s'.value.reqs[r].phase == Executing(InnerReturning(
        if polled then Outcome(Some(s.reqs[r].slot.image), None) else Failure(FAILED)))
  {
    hide Next, Performed;
    NoteLeaves(s, r, op);
    PerformedFirst(s, r, NoteOperation, [Action.Poll(polled)]);
    var noted := Next(s, Act(r, NoteOperation)).value;
    PerformedLast(noted, r, Action.Poll(polled));
    PollLeaves(noted, r, op, polled);
  }

  // ---- what others do with an operation they can see ------------------------------------------------

  /** In every reachable state: once the owner has noted its operation, everybody on the instance can see it. */
  lemma NotedIsSeen(states: seq<State>, steps: seq<Step>, k: nat, r: nat, op: string, at: int)
    requires Run(states, steps) && k < |states| && r in states[k].reqs
    requires states[k].reqs[r].phase == Executing(Noting(op))
    ensures var (q, s') := (states[k].reqs[r], Next(states[k], Act(r, NoteOperation)));
      s'.Some? && OperationOf(CacheOf(s'.value, q.inst), Inner(q.slot.image), at) == op
  {
    Reachable(states, steps, k);
    assert ReqOk(states[k], r);
    hide Run, Inv, PhaseOk, WaitOk, LiveOk;
  }

  /** The operation a request is about to write to its reservation. */
  function OperationToRecord(p: Phase): Option<string> {
    match p
    case Admitting(ReplayRecording(_, op)) => Some(op)
    case Owning(JoinRecording(_, op)) => Some(op)
    case Executing(Recording(op)) => Some(op)
    case _ => None
  }

  /** Who shares a result, or an attested request that shares an execution, records the operation it can see. */
  lemma SeenIsRecorded(s: State, r: nat, at: int)
    requires r in s.reqs && Seen(s, s.reqs[r], at) != ""
    requires var q := s.reqs[r];
      (q.phase.Admitting? && q.phase.admit.Replaying?) ||
      (q.phase.Owning? && q.phase.own.AfterInner? && !q.phase.own.owner && !q.soft)
    ensures var s' := Next(s, Act(r, CheckOperation(at)));
      s'.Some? && r in s'.value.reqs && OperationToRecord(s'.value.reqs[r].phase) == Some(Seen(s, s.reqs[r], at))
  {
    hide OperationOf;
  }

  /** The operation is in the request's reservation, or the request goes on with an error. */
  lemma RecordedOrFailed(s: State, r: nat, fails: bool, applied: bool)
    requires r in s.reqs && OperationToRecord(s.reqs[r].phase).Some?
    ensures var q, op := s.reqs[r], OperationToRecord(s.reqs[r].phase).value;
      var s' := Next(s, Act(r, RecordOperation(fails, applied)));
      s'.Some? && r in s'.value.reqs && var o := Outgoing(s'.value.reqs[r].phase);
      if MayRecord(s, q.slot, op) && !fails
      then q.slot in s'.value.store && s'.value.store[q.slot].op == op &&
        OperationToRecord(s'.value.reqs[r].phase) == None
      else o.Some? && o.value.err == Some(FAILED)
  {
    hide SpendStore.ValidReference;
  }

  /** A request that cannot attest has nothing to recover: on a taken slot it fails at once. */
  lemma SoftDuplicateFails(s: State, r: nat, fails: bool, applied: bool)
    requires r in s.reqs && s.reqs[r].phase == Admitting(Reserving) && s.reqs[r].soft && s.reqs[r].slot in s.store
    ensures var s' := Next(s, Act(r, Reserve(fails, applied)));
      s'.Some? && s'.value.store == s.store && r in s'.value.reqs &&
      var o := Outgoing(s'.value.reqs[r].phase); o.Some? && o.value.err.Some?
  {
  }

  /** A reserve that fails, applied or not, stops the scan before anything is sent. */
  lemma FailedReserveStops(s: State, r: nat, applied: bool)
    requires r in s.reqs && s.reqs[r].phase == Admitting(Reserving)
    ensures var s' := Next(s, Act(r, Reserve(true, applied)));
      s'.Some? && r in s'.value.reqs && s'.value.reqs[r].sub == s.reqs[r].sub &&
      var o := Outgoing(s'.value.reqs[r].phase); o.Some? && o.value.err.Some?
  {
  }

  lemma LeavesEarly(s: State, r: nat, c: nat)
    requires r in s.reqs && s.reqs[r].phase == Owning(InnerWait(c))
    ensures Next(s, Act(r, Abandon)) ==
      Some(Put(s, r, s.reqs[r].(phase := Owning(AfterInner(false, Failure(FAILED))))))
  {
  }

  lemma ChecksOperation(s: State, r: nat, o: Answer, op: string, at: int)
    requires r in s.reqs && s.reqs[r].phase == Owning(AfterInner(false, o)) && !s.reqs[r].soft
    requires Seen(s, s.reqs[r], at) == op && op != ""
    ensures Next(s, Act(r, CheckOperation(at))) == Some(Put(s, r, s.reqs[r].(phase := Owning(JoinRecording(o, op)))))
  {
    hide OperationOf;
  }

  lemma KeepsOperation(s: State, r: nat, o: Answer, op: string)
    requires r in s.reqs && s.reqs[r].phase == Owning(JoinRecording(o, op)) && MayRecord(s, s.reqs[r].slot, op)
    ensures var (slot, s') := (s.reqs[r].slot, Next(s, Act(r, RecordOperation(false, true))));
      s'.Some? && s'.value.store == s.store[slot := s.store[slot].(op := op)] &&
      r in s'.value.reqs && s'.value.reqs[r].phase == Owning(Releasing(o))
  {
    hide SpendStore.ValidReference;
  }

  /**
   An attested waiter whose deadline comes first keeps the accepted operation it can see in its own
   reservation before it returns its error.
   */
  lemma EarlyLeaverKeepsOperation(s: State, r: nat, c: nat, op: string, at: int)
    requires r in s.reqs && s.reqs[r].phase == Owning(InnerWait(c)) && !s.reqs[r].soft
    requires Seen(s, s.reqs[r], at) == op && op != "" && MayRecord(s, s.reqs[r].slot, op)
    ensures var (slot, s') :=
        (s.reqs[r].slot, Performed(s, r, [Abandon] + ([CheckOperation(at)] + [RecordOperation(false, true)])));
      s'.Some? && slot in s'.value.store && s'.value.store[slot].op == op && r in s'.value.reqs &&
      s'.value.reqs[r].phase == Owning(Releasing(Failure(FAILED)))
  {
    hide Next, Performed, OperationOf;
    var q := s.reqs[r];
    LeavesEarly(s, r, c);
    PerformedFirst(s, r, Abandon, [CheckOperation(at)] + [RecordOperation(false, true)]);
    var left := Next(s, Act(r, Abandon)).value;
    ChecksOperation(left, r, Failure(FAILED), op, at);
    PerformedFirst(left, r, CheckOperation(at), [RecordOperation(false, true)]);
    var checked := Next(left, Act(r, CheckOperation(at))).value;
    assert MayRecord(checked, q.slot, op);
    hide MayRecord;
    KeepsOperation(checked, r, Failure(FAILED), op);
    PerformedLast(checked, r, RecordOperation(false, true));
  }
}
