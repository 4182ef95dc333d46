/**
 The single-flight result cache of one instance (cmd/ocr/scan_coalesce.go:39-182). Every mutex section
 is one function here; `K` are the keys, `C` names in-flight calls and `R` is the type of results.
 */
module Coalescer {
  import opened Wrappers

  const DEFAULT_TTL: int := 90_000_000_000

  /** What the shared function returned; a nil result is None. */
  datatype Outcome<R> = Outcome(result: Option<R>, err: Option<string>)

  datatype Flight<C> = Flight(call: C, operation: string)

  datatype Entry<R> = Entry(result: Option<R>, expires: int, operation: string)

  datatype Cache<K, C, R> = Cache(inFlight: map<K, Flight<C>>, done: map<K, Entry<R>>)

  /** How a caller gets in: an earlier result, a running call, or nothing to share. */
  datatype Entered<C, R> = Replay(result: R) | Join(call: C) | Nothing

  predicate Servable<R>(e: Entry<R>, now: int) { e.result.Some? && now < e.expires }

  /** Do and Recover look for existing work in the same way. */
  function Found<K(==), C, R>(c: Cache<K, C, R>, key: K, now: int): Entered<C, R> {
    if key in c.done && Servable(c.done[key], now) then Replay(c.done[key].result.value)
    else if key in c.inFlight then Join(c.inFlight[key].call)
    else Nothing
  }

  /** Do drops an entry it cannot replay, whoever else could still have read its operation. */
  function Dropped<K(==), C, R>(c: Cache<K, C, R>, key: K, now: int): Cache<K, C, R> {
    if key in c.done && Servable(c.done[key], now) then c else c.(done := c.done - {key})
  }

  function Started<K(==), C, R>(c: Cache<K, C, R>, key: K, call: C): Cache<K, C, R> {
    c.(inFlight := c.inFlight[key := Flight(call, "")])
  }

  function Swept<K(==), R>(done: map<K, Entry<R>>, now: int): map<K, Entry<R>> {
    map k | k in done && now < done[k].expires :: done[k]
  }

  /** The closing section of Do; the clock is read for the expiry and again for the sweep. */
  function Settled<K(==), C, R>(c: Cache<K, C, R>, key: K, outcome: Outcome<R>, ttl: int, now: int, later: int)
    : Cache<K, C, R>
    requires key in c.inFlight
  {
    var operation := c.inFlight[key].operation;
    var done := if outcome.err == None || operation != ""
                then c.done[key := Entry(if outcome.err == None then outcome.result else None, now + ttl, operation)]
                else c.done;
    Cache(c.inFlight - {key}, Swept(done, later))
  }

  function LookedUp<K(==), C, R>(c: Cache<K, C, R>, key: K, now: int): Cache<K, C, R> {
    if key in c.done && c.done[key].result.Some? && now >= c.done[key].expires then c.(done := c.done - {key}) else c
  }

  function Recorded<K(==), C, R>(c: Cache<K, C, R>, key: K, operation: string): Cache<K, C, R> {
    if key in c.inFlight then c.(inFlight := c.inFlight[key := c.inFlight[key].(operation := operation)]) else c
  }

  function OperationOf<K(==), C, R>(c: Cache<K, C, R>, key: K, now: int): string {
    if key in c.inFlight then c.inFlight[key].operation
    else if key in c.done && now < c.done[key].expires then c.done[key].operation
    else ""
  }

  /**
   The operation of a running call is the one recorded last, at any time; nobody else's changes, and what
   callers find stays the same.
   */
  lemma RecordedIsRead<K, C, R>(c: Cache<K, C, R>, key: K, operation: string, other: K, at: int)
    requires key in c.inFlight
    ensures OperationOf(Recorded(c, key, operation), key, at) == operation
    ensures other != key ==> OperationOf(Recorded(c, key, operation), other, at) == OperationOf(c, other, at)
    ensures Found(Recorded(c, key, operation), other, at) == Found(c, other, at)
  {
  }

  /** Where no call runs there is nothing to record it on. */
  lemma RecordedNowhere<K, C, R>(c: Cache<K, C, R>, key: K, operation: string, other: K, at: int)
    requires key !in c.inFlight
    ensures OperationOf(Recorded(c, key, operation), other, at) == OperationOf(c, other, at)
    ensures Found(Recorded(c, key, operation), other, at) == Found(c, other, at)
  {
  }

  /** After the call has ended, also with an error, the operation recorded last is read until the lifetime ends. */
  lemma RecordedSurvivesSettling<K, C, R>(c: Cache<K, C, R>, key: K, first: string, operation: string,
                                          outcome: Outcome<R>, ttl: int, now: int, later: int, at: int)
    requires key in c.inFlight && operation != "" && now <= later < now + ttl && at < now + ttl
    ensures var twice := Recorded(Recorded(c, key, first), key, operation);
      key in twice.inFlight && OperationOf(Settled(twice, key, outcome, ttl, now, later), key, at) == operation
  {
    var twice := Recorded(Recorded(c, key, first), key, operation);
    var settled := Settled(twice, key, outcome, ttl, now, later);
    assert key in settled.done && settled.done[key].expires == now + ttl;
  }

  /** A result that settled is what every caller finds until its lifetime ends; a failure leaves nothing to find. */
  lemma SettledIsFound<K, C, R>(c: Cache<K, C, R>, key: K, outcome: Outcome<R>, ttl: int, now: int, later: int, at: int)
    requires key in c.inFlight && now <= later < now + ttl && later <= at < now + ttl
    ensures var settled := Settled(c, key, outcome, ttl, now, later);
      (outcome.err == None && outcome.result.Some? ==> Found(settled, key, at) == Replay(outcome.result.value)) &&
      (outcome.err.Some? && !(key in c.done && Servable(c.done[key], at)) ==> Found(settled, key, at) == Nothing)
  {
    var settled := Settled(c, key, outcome, ttl, now, later);
    assert outcome.err == None ==> key in settled.done && settled.done[key].expires == now + ttl;
  }

  /** A whole Do of one caller that runs the call, with nobody in between. */
  function RanAlone<K(==), C, R>(c: Cache<K, C, R>, key: K, now: int, call: C, operation: string,
                                 outcome: Outcome<R>, ttl: int, at: int, later: int): Cache<K, C, R> {
    Settled(Recorded(Started(Dropped(c, key, now), key, call), key, operation), key, outcome, ttl, at, later)
  }

  /**
   A finished call's accepted operation stays readable until its entry expires, except that the next Do
   on the same key throws it away when the call left no result.
   */
  lemma OperationSurvivesDoIff<K, C, R>(c: Cache<K, C, R>, key: K, outcome: Outcome<R>, ttl: int, now: int, other: K,
                                        at: int)
    requires key in c.inFlight && c.inFlight[key].operation != "" && ttl > 0 && now <= at < now + ttl
    ensures var settled := Settled(c, key, outcome, ttl, now, now);
      OperationOf(settled, key, at) == c.inFlight[key].operation &&
      (OperationOf(Dropped(settled, other, at), key, at) == c.inFlight[key].operation <==>
         other != key || (outcome.err == None && outcome.result.Some?))
  {
    var settled := Settled(c, key, outcome, ttl, now, now);
    assert key in settled.done && settled.done[key].expires == now + ttl;
  }

  /** It is lost when a call failed after its operation was accepted and somebody asks for the same key again. */
  lemma OperationIsLost<K, C, R>(key: K, call: C, operation: string, ttl: int, now: int)
    requires operation != "" && ttl > 0
    ensures var c: Cache<K, C, R> := Cache(map[key := Flight(call, operation)], map[]);
      var settled := Settled(c, key, Outcome(None, Some("failed")), ttl, now, now);
      OperationOf(settled, key, now) == operation && OperationOf(Dropped(settled, key, now), key, now) == ""
  {
  }

  // ---- the cache as an object ---------------------------------------------------------------

  type Bytes = seq<bv8>

  class ScanCall {
    var outcome: Option<Outcome<Bytes>>
    var operation: string

    constructor ()
      ensures outcome == None && operation == ""
    {
      outcome, operation := None, "";
    }

    method Finish(result: Option<Bytes>, err: Option<string>)
      modifies this
      ensures outcome == Some(Outcome(result, err)) && operation == old(operation)
    {
      outcome := Some(Outcome(result, err));
    }
  }

  class ScanCoalescer {
    var inFlight: map<string, ScanCall>
    var done: map<string, Entry<Bytes>>
    const ttl: int

    /** Different keys never share a call. */
    ghost predicate Valid()
      reads this
    {
      ttl > 0 && forall k, l :: k in inFlight && l in inFlight && inFlight[k] == inFlight[l] ==> k == l
    }

    ghost function View(): Cache<string, ScanCall, Bytes>
      reads this, inFlight.Values
    {
      Cache(map k | k in inFlight :: Flight(inFlight[k], inFlight[k].operation), done)
    }

    constructor (ttl0: int)
      ensures Valid() && ttl == (if ttl0 <= 0 then 90_000_000_000 else ttl0) && View() == Cache(map[], map[])
    {
      ttl := if ttl0 <= 0 then DEFAULT_TTL else ttl0;
      inFlight, done := map[], map[];
    }

    /** The opening section of Do. `own` is the call this caller must run, if any. */
    method EnterDo(key: string, now: int) returns (entered: Entered<ScanCall, Bytes>, own: ScanCall?)
      requires Valid()
      modifies this
      ensures Valid()
      ensures entered == Found(old(View()), key, now)
      ensures own != null <==> entered == Nothing
      ensures own == null ==> View() == Dropped(old(View()), key, now)
      ensures own != null ==> fresh(own) && View() == Started(Dropped(old(View()), key, now), key, own)
    {
      own := null;
      if key in done {
        if done[key].result.Some? && now < done[key].expires { return Replay(done[key].result.value), null; }
        done := done - {key};
      }
      if key in inFlight { return Join(inFlight[key]), null; }
      own := Publish(key);
      return Nothing, own;
    }

    method Publish(key: string) returns (own: ScanCall)
      requires Valid() && key !in inFlight
      modifies this
      ensures Valid() && fresh(own) && View() == Started(old(View()), key, own)
    {
      ghost var before := View();
      own := new ScanCall();
      inFlight := inFlight[key := own];
      forall k ensures k in View().inFlight <==> k in before.inFlight || k == key {}
      assert View().inFlight == before.inFlight[key := Flight(own, "")];
    }

    /** The closing section of Do, after the call's function returned. */
    method Settle(key: string, call: ScanCall, now: int, later: int) returns (outcome: Outcome<Bytes>)
      requires Valid() && key in inFlight && inFlight[key] == call && call.outcome.Some?
      modifies this
      ensures Valid() && Some(outcome) == call.outcome
      ensures View() == Settled(old(View()), key, outcome, ttl, now, later)
    {
      hide Swept;
      outcome := call.outcome.value;
      inFlight := inFlight - {key};
      assert View().inFlight == old(View()).inFlight - {key};
      if outcome.err == None || call.operation != "" {
        var entry := Entry(None, now + ttl, call.operation);
        if outcome.err == None { entry := entry.(result := outcome.result); }
        done := done[key := entry];
      }
      Sweep(later);
    }

    /**
     A whole Do in which nobody else comes in between: `operation` is what the function recorded, if
     anything, `result` and `err` what it returned. A joiner's outcome is there once its call ended.
     */
    method Do(key: string, now: int, operation: string, result: Option<Bytes>, err: Option<string>, at: int, later: int)
      returns (outcome: Option<Outcome<Bytes>>, own: ScanCall?)
      requires Valid()
      modifies this
      ensures Valid() && (own != null <==> Found(old(View()), key, now) == Nothing)
      ensures own == null ==> View() == Dropped(old(View()), key, now)
      ensures own == null ==>
        match Found(old(View()), key, now)
        case Replay(v) => outcome == Some(Outcome(Some(v), None))
        case Join(c) => outcome == c.outcome
      ensures own != null ==> outcome == Some(Outcome(result, err))
      ensures own != null ==>
        View() == RanAlone(old(View()), key, now, own, operation, Outcome(result, err), ttl, at, later)
    {
      hide Swept, Settled;
      var entered;
      entered, own := EnterDo(key, now);
      match entered {
        case Replay(v) => outcome := Some(Outcome(Some(v), None));
        case Join(call) => outcome := call.outcome;
        case Nothing =>
          assert key in View().inFlight && View().inFlight[key].call == own;
          RecordOperation(key, operation);
          ghost var before := View();
          own.Finish(result, err);
          assert View().inFlight == before.inFlight;
          var settled := Settle(key, own, at, later);
          outcome := Some(settled);
      }
    }

    method Sweep(now: int)
      modifies `done
      ensures done == Swept(old(done), now)
    {
      var pending := done.Keys;
      while pending != {}
        invariant pending <= old(done).Keys && done.Keys <= old(done).Keys
        invariant forall k :: k in old(done) ==> (k in done <==> k in pending || now < old(done)[k].expires)
        invariant forall k :: k in done ==> done[k] == old(done)[k]
      {
        var k :| k in pending;
        pending := pending - {k};
        if now >= done[k].expires { done := done - {k}; }
      }
    }

    method EnterRecover(key: string, now: int) returns (entered: Entered<ScanCall, Bytes>)
      ensures entered == Found(View(), key, now)
    {
      if key in done && done[key].result.Some? && now < done[key].expires { return Replay(done[key].result.value); }
      if key !in inFlight { return Nothing; }
      return Join(inFlight[key]);
    }

    method Lookup(key: string, now: int) returns (r: Option<Bytes>)
      requires Valid()
      modifies `done
      ensures Valid() && View() == LookedUp(old(View()), key, now)
      ensures r == if key in old(done) && Servable(old(done)[key], now) then old(done)[key].result else None
    {
      if key !in done || done[key].result == None { return None; }
      if now >= done[key].expires {
        done := done - {key};
        return None;
      }
      return done[key].result;
    }

    method RecordOperation(key: string, operation: string)
      requires Valid()
      modifies if key in inFlight then {inFlight[key]} else {}
      ensures Valid() && View() == Recorded(old(View()), key, operation) && done == old(done)
      ensures inFlight == old(inFlight) && forall k :: k in inFlight ==>
        inFlight[k].operation == (if k == key then operation else old(inFlight[k].operation))
      ensures key in inFlight ==> forall at :: OperationOf(View(), key, at) == operation
    {
      if key in inFlight { inFlight[key].operation := operation; }
    }

    method Operation(key: string, now: int) returns (operation: string)
      ensures operation == OperationOf(View(), key, now)
    {
      if key in inFlight { return inFlight[key].operation; }
      if key in done && now < done[key].expires { return done[key].operation; }
      return "";
    }
  }
}
