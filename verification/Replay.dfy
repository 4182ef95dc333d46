/**
 Every interleaving of assertions, registrations and re-registrations over the durable key store.
 Store transactions are optimistic: the body runs on a snapshot of the alias group, any number of
 times, and takes effect only if that group is unchanged at commit (internal/firestore/client.go:47-49).
 A commit may also take effect while its caller sees an error.
 */
module ReplayProtocol {
  import opened KeyId
  import opened Wrappers
  import opened Counters

  datatype Request =
    | Checking(key: string, next: uint32)                    // before the stale pre-read
    | PreRead(key: string, next: uint32, seen: uint32)       // the pre-read counter was below next
    | Advancing(key: string, next: uint32, snapshot: Docs)   // transaction body ran on this snapshot
    | Enrolling(key: string, spki: Spki)
    | Creating(key: string, spki: Spki, snapshot: Docs)
    | Ended

  /** `admitted` is the history of assertions VerifyAssertion accepted, in commit order. */
  datatype State = State(docs: Docs, requests: map<nat, Request>, admitted: seq<(string, uint32)>)

  datatype Step =
    | Assert(id: nat, key: string, next: uint32)
    | Check(id: nat)
    | ReadAdvance(id: nat)
    | CommitAdvance(id: nat, acknowledged: bool)
    | Register(id: nat, key: string, spki: Spki)
    | ReadCreate(id: nat)
    | CommitCreate(id: nat)
    | Fail(id: nat)

  ghost function Restrict(docs: Docs, group: set<string>): Docs {
    map alias | alias in docs && alias in group :: docs[alias]
  }

  predicate IsIdentity(key: string) { CanonicalKeyId(key) == Some(key) }

  ghost predicate Next(s: State, step: Step, s': State) {
    match step
    case Assert(id, key, next) =>
      IsIdentity(key) && id !in s.requests && s' == s.(requests := s.requests[id := Checking(key, next)])
    case Check(id) =>
      // GetKey and the cheap counter test; the signature test follows and may Fail
      id in s.requests && s.requests[id].Checking? &&
      var r := s.requests[id];
      s' == s.(requests := s.requests[id :=
        if r.key in s.docs && s.docs[r.key].spki.Some? && s.docs[r.key].signCount.Some? &&
         s.docs[r.key].signCount.value < r.next
        then PreRead(r.key, r.next, s.docs[r.key].signCount.value) else Ended])
    case ReadAdvance(id) =>
      // first run of the transaction body, or a re-run after an aborted one
      id in s.requests && (s.requests[id].PreRead? || s.requests[id].Advancing?) &&
      var r := s.requests[id];
      s' == s.(requests := s.requests[id := Advancing(r.key, r.next, Restrict(s.docs, Group(r.key)))])
    case CommitAdvance(id, acknowledged) =>
      id in s.requests && s.requests[id].Advancing? &&
      var r := s.requests[id];
      r.snapshot == Restrict(s.docs, Group(r.key)) &&
      if MayAdvance(r.snapshot, Group(r.key), r.key, r.next)
      then s' == State(s.docs[r.key := r.snapshot[r.key].(signCount := Some(r.next))], s.requests[id := Ended],
                       if acknowledged then s.admitted + [(r.key, r.next)] else s.admitted)
      else s' == s.(requests := s.requests[id := Ended])
    case Register(id, key, spki) =>
      IsIdentity(key) && id !in s.requests && s' == s.(requests := s.requests[id := Enrolling(key, spki)])
    case ReadCreate(id) =>
      id in s.requests && (s.requests[id].Enrolling? || s.requests[id].Creating?) &&
      var r := s.requests[id];
      s' == s.(requests := s.requests[id := Creating(r.key, r.spki, Restrict(s.docs, Group(r.key)))])
    case CommitCreate(id) =>
      id in s.requests && s.requests[id].Creating? &&
      var r := s.requests[id];
      r.snapshot == Restrict(s.docs, Group(r.key)) &&
      s'.requests == s.requests[id := Ended] && s'.admitted == s.admitted &&
      if MayCreate(r.snapshot, Group(r.key), r.spki)
      then exists m: uint32 ::
        IsMaximum(r.snapshot, Group(r.key), 0, m) && s'.docs == s.docs[r.key := KeyDoc(Some(r.spki), Some(m))]
      else s'.docs == s.docs
    case Fail(id) =>
      id in s.requests && s' == s.(requests := s.requests[id := Ended])
  }

  // ---- a transaction is atomic -----------------------------------------------------------

  lemma RestrictDecides(docs: Docs, group: set<string>, keyId: string, next: int, spki: Spki)
    ensures MayAdvance(Restrict(docs, group), group, keyId, next) == MayAdvance(docs, group, keyId, next)
    ensures MayCreate(Restrict(docs, group), group, spki) == MayCreate(docs, group, spki)
  {
    var snap := Restrict(docs, group);
    assert forall alias :: alias in group && alias in docs <==> alias in snap;
  }

  /** However often its body was re-run, a committed advance is the store's atomic advance, and admits if answered. */
  lemma CommitIsAtomicAdvance(s: State, id: nat, acknowledged: bool, s': State)
    requires Next(s, CommitAdvance(id, acknowledged), s')
    ensures s'.docs == AdvanceDocs(s.docs, Group(s.requests[id].key), s.requests[id].key, s.requests[id].next)
    ensures var r := s.requests[id];
      s'.admitted ==
        if acknowledged && MayAdvance(s.docs, Group(r.key), r.key, r.next) then s.admitted + [(r.key, r.next)]
        else s.admitted
  {
    hide Group;
    var r := s.requests[id];
    RestrictDecides(s.docs, Group(r.key), r.key, r.next, "");
  }

  /** A committed registration is the store's atomic create: it keeps the largest counter of the group. */
  lemma CommitIsAtomicCreate(s: State, id: nat, s': State)
    requires Next(s, CommitCreate(id), s')
    ensures var r := s.requests[id];
      CreatesDocs(s.docs, Group(r.key), r.key, r.spki, 0, s'.docs) && s'.admitted == s.admitted
  {
    hide Group;
    var r := s.requests[id];
    RestrictDecides(s.docs, Group(r.key), r.key, 0, r.spki);
    RestrictCounts(s.docs, Group(r.key));
    hide MayCreate, Restrict, IsMaximum;
  }

  lemma RestrictCounts(docs: Docs, group: set<string>)
    ensures forall m :: IsMaximum(Restrict(docs, group), group, 0, m) <==> IsMaximum(docs, group, 0, m)
  {
    var snap := Restrict(docs, group);
    assert forall alias :: alias in group && alias in docs <==> alias in snap;
    assert forall alias :: alias in snap ==> alias in group && snap[alias] == docs[alias];
  }

  /** A new assertion above everything its group has counted is admitted when nothing fails and nobody interferes. */
  lemma FreshAssertionIsAdmitted(s: State, id: nat, key: string, next: uint32)
    returns (asserted: State, checked: State, read: State, done: State)
    requires IsIdentity(key) && id !in s.requests && MayAdvance(s.docs, Group(key), key, next)
    ensures Next(s, Assert(id, key, next), asserted) && Next(asserted, Check(id), checked)
    ensures Next(checked, ReadAdvance(id), read) && Next(read, CommitAdvance(id, true), done)
    ensures done.admitted == s.admitted + [(key, next)] && done.docs == AdvanceDocs(s.docs, Group(key), key, next)
  {
    hide Group, IsIdentity;
    assert Below(s.docs[key], s.docs[key].spki.value, next);
    asserted := s.(requests := s.requests[id := Checking(key, next)]);
    checked := s.(requests := asserted.requests[id := PreRead(key, next, s.docs[key].signCount.value)]);
    read := s.(requests := checked.requests[id := Advancing(key, next, Restrict(s.docs, Group(key)))]);
    RestrictDecides(s.docs, Group(key), key, next, "");
    var doc := read.requests[id].snapshot[key];
    done := State(s.docs[key := doc.(signCount := Some(next))], read.requests[id := Ended], s.admitted + [(key, next)]);
  }

  /** So is a registration that every stored spelling agrees with. */
  lemma FreshRegistrationSucceeds(s: State, id: nat, key: string, spki: Spki, m: uint32)
    returns (registered: State, read: State, done: State)
    requires IsIdentity(key) && id !in s.requests && MayCreate(s.docs, Group(key), spki)
    requires IsMaximum(s.docs, Group(key), 0, m)
    ensures Next(s, Register(id, key, spki), registered) && Next(registered, ReadCreate(id), read)
    ensures Next(read, CommitCreate(id), done) && done.docs == s.docs[key := KeyDoc(Some(spki), Some(m))]
  {
    hide Group, IsIdentity;
    registered := s.(requests := s.requests[id := Enrolling(key, spki)]);
    read := s.(requests := registered.requests[id := Creating(key, spki, Restrict(s.docs, Group(key)))]);
    RestrictDecides(s.docs, Group(key), key, 0, spki);
    RestrictCounts(s.docs, Group(key));
    done := s.(docs := s.docs[key := KeyDoc(Some(spki), Some(m))], requests := read.requests[id := Ended]);
  }

  // ---- the invariant ---------------------------------------------------------------------

  /** The canonical document of `key` decodes and has counted at least to `n`. */
  predicate CountedTo(docs: Docs, key: string, n: int) {
    key in docs && docs[key].signCount.Some? && n <= docs[key].signCount.value
  }

  ghost predicate Invariant(s: State) {
    (forall id :: id in s.requests && !s.requests[id].Ended? ==> IsIdentity(s.requests[id].key)) &&
    (forall i :: 0 <= i < |s.admitted| ==> CountedTo(s.docs, s.admitted[i].0, s.admitted[i].1)) &&
    (forall i, j :: 0 <= i < j < |s.admitted| && s.admitted[i].0 == s.admitted[j].0 ==>
       s.admitted[i].1 < s.admitted[j].1)
  }

  /** No step lowers a canonical counter. */
  lemma CounterNeverFalls(s: State, step: Step, s': State, key: string, n: int)
    requires Invariant(s) && Next(s, step, s') && CountedTo(s.docs, key, n)
    ensures CountedTo(s'.docs, key, n)
  {
    hide Group, IsIdentity;
    if step.CommitAdvance? {
      var r := s.requests[step.id];
      CommitIsAtomicAdvance(s, step.id, step.acknowledged, s');
      if r.key == key && MayAdvance(s.docs, Group(key), key, r.next) {
        assert Below(s.docs[key], s.docs[key].spki.value, r.next);
      }
    } else if step.CommitCreate? {
      var r := s.requests[step.id];
      if r.key == key {
        IdentityInGroup(key);
        assert key in Restrict(s.docs, Group(key));
      }
    }
  }

  lemma IdentityInGroup(key: string)
    requires IsIdentity(key)
    ensures key in Group(key)
  {
    hide Group, CanonicalKeyId;
    CanonicalInGroup(key);
  }

  lemma StepPreserves(s: State, step: Step, s': State)
    requires Invariant(s) && Next(s, step, s')
    ensures Invariant(s')
  {
    hide Group, IsIdentity;
    forall i | 0 <= i < |s.admitted| ensures CountedTo(s'.docs, s.admitted[i].0, s.admitted[i].1) {
      CounterNeverFalls(s, step, s', s.admitted[i].0, s.admitted[i].1);
    }
    if s'.admitted != s.admitted {
      AdmissionIsFresh(s, step, s');
    }
  }

  /** An admitted assertion counts past everything admitted before for its key. */
  lemma AdmissionIsFresh(s: State, step: Step, s': State)
    requires Invariant(s) && Next(s, step, s') && s'.admitted != s.admitted
    ensures step.CommitAdvance? && |s'.admitted| == |s.admitted| + 1 && s'.admitted[..|s.admitted|] == s.admitted
    ensures var (key, n) := s'.admitted[|s.admitted|];
      CountedTo(s'.docs, key, n) && forall i :: 0 <= i < |s.admitted| && s.admitted[i].0 == key ==> s.admitted[i].1 < n
  {
    hide Group, IsIdentity;
    CommitIsAtomicAdvance(s, step.id, step.acknowledged, s');
    var r := s.requests[step.id];
    assert Below(s.docs[r.key], s.docs[r.key].spki.value, r.next);
  }

  // ---- whole runs -------------------------------------------------------------------------

  ghost predicate Run(states: seq<State>, steps: seq<Step>) {
    |states| == |steps| + 1 && states[0].requests == map[] && states[0].admitted == [] &&
    forall k :: 0 <= k < |steps| ==> Next(states[k], steps[k], states[k + 1])
  }

  lemma {:induction false} RunPreserves(states: seq<State>, steps: seq<Step>, k: nat)
    requires Run(states, steps) && k < |states|
    ensures Invariant(states[k])
  {
    hide Next, Invariant;
    if k == 0 {
      InitialInvariant(states[0]);
    } else {
      RunPreserves(states, steps, k - 1);
      StepPreserves(states[k - 1], steps[k - 1], states[k]);
    }
  }

  lemma InitialInvariant(s: State)
    requires s.requests == map[] && s.admitted == []
    ensures Invariant(s)
  {}

  /** Replay safety: over a whole run no (key, count) is admitted twice; counts of a key only rise. */
  lemma NoReplay(states: seq<State>, steps: seq<Step>, k: nat, i: nat, j: nat)
    requires Run(states, steps) && k < |states| && i < j < |states[k].admitted|
    requires states[k].admitted[i].0 == states[k].admitted[j].0
    ensures states[k].admitted[i].1 < states[k].admitted[j].1
  {
    hide Next;
    RunPreserves(states, steps, k);
  }

  // ---- the group maximum ------------------------------------------------------------------

  /** Some spelling of the key has counted at least to `n`. */
  ghost predicate GroupCountedTo(docs: Docs, key: string, n: int) {
    exists alias :: alias in Group(key) && CountedTo(docs, alias, n)
  }

  /** No step lowers the largest counter of an alias group. */
  lemma GroupMaximumNeverFalls(s: State, step: Step, s': State, key: string, n: int)
    requires Invariant(s) && Next(s, step, s') && GroupCountedTo(s.docs, key, n)
    ensures GroupCountedTo(s'.docs, key, n)
  {
    hide Group, IsIdentity;
    var alias :| alias in Group(key) && CountedTo(s.docs, alias, n);
    CounterNeverFalls(s, step, s', alias, n);
  }

  /** Nor does it over any stretch of a run. */
  lemma {:induction false} CountsNeverFall(states: seq<State>, steps: seq<Step>, i: nat, j: nat, key: string, n: int)
    requires Run(states, steps) && i <= j < |states| && GroupCountedTo(states[i].docs, key, n)
    ensures GroupCountedTo(states[j].docs, key, n)
    decreases j
  {
    hide Next, Invariant, GroupCountedTo;
    if i < j {
      CountsNeverFall(states, steps, i, j - 1, key, n);
      RunPreserves(states, steps, j - 1);
      GroupMaximumNeverFalls(states[j - 1], steps[j - 1], states[j], key, n);
    }
  }
}
