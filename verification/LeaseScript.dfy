/**
 The lease-guarded promotion of the log forwarder (bootstrap/verify-ocr-loki-export.sh:96-112, 124-136,
 239-542). Every cloud command may fail with or without effect, every read may fail, and other actors
 change the sink and the traffic whenever this run does not own the lease.
 */
module LeaseScript {
  import opened Wrappers

  datatype Holder = Free | Mine | Foreign

  /** What the runs share, with this run's own proof subscription. */
  datatype Shared = Shared(sinkOn: bool, traffic: string, proof: bool)

  datatype Exit = Success | Failed | Incomplete

  /** What a command or a read of the script confirmed. */
  datatype Event =
    | Created | OwnerSeen | LeaseGone
    | SinkSeen(on: bool) | SinkSet(on: bool)
    | TrafficSeen(revision: string) | TrafficSet(revision: string)
    | ProofSet(present: bool) | ProofGone
    | Delivered(throughSink: bool) | Checked(what: string)

  class Cloud {
    var lease: Holder
    var sinkOn: bool
    /** The revision that takes all traffic, or "" for a split. */
    var traffic: string
    var proof: bool

    /** The shared state when the lease became ours, and when it stopped being ours. */
    ghost var found: Option<Shared>
    ghost var gaveUp: Option<Shared>
    /** Sink and traffic commands issued by this run. */
    ghost var writes: nat
    /** The isolated and the real delivery proof have been seen. */
    ghost var directProof: bool
    ghost var sinkProof: bool
    /** The answer to the create command, or a readback of the owner, has shown the lease to be ours. */
    ghost var seenMine: bool
    /** Reads that did not tell what was there, and commands that failed or whose answer was lost. */
    ghost var faults: nat
    /** What has been confirmed so far, in order. */
    ghost var log: seq<Event>
    /** How often others moved. */
    ghost var moves: nat
    /** Somebody else held the lease again before its absence was read. */
    ghost var overtaken: bool

    ghost function View(): Shared
      reads this
    {
      Shared(sinkOn, traffic, proof)
    }

    ghost function Proofs(): (bool, bool)
      reads this
    {
      (directProof, sinkProof)
    }

    /** Only others acted: nothing moves while the lease is ours, and it does not become ours. */
    twostate predicate OthersOnly()
      reads this
    {
      (lease == Mine <==> old(lease) == Mine) && (lease == Mine ==> View() == old(View())) && proof == old(proof) &&
      found == old(found) && gaveUp == old(gaveUp) && writes == old(writes) && Proofs() == old(Proofs()) &&
      (old(seenMine) ==> seenMine) && faults >= old(faults) && moves >= old(moves) &&
      (moves == old(moves) ==> lease == old(lease) && View() == old(View()))
    }

    /** Nothing was read wrongly, and nothing failed, since then. */
    twostate predicate Faultless()
      reads this
    {
      faults == old(faults)
    }

    /** Nor did anybody else move. */
    twostate predicate Calm()
      reads this
    {
      faults == old(faults) && moves == old(moves)
    }

    method Others()
      modifies this
      ensures OthersOnly() && seenMine == old(seenMine) && faults == old(faults) && overtaken == old(overtaken)
      ensures log == old(log)
    {
      var move := *;
      if lease != Mine && move {
        moves := moves + 1;
        sinkOn, traffic := *, *;
        lease := *;
        if lease == Mine { lease := Foreign; }
      }
    }

    /** A read that may fail. */
    method AssertLeaseOwner() returns (ok: bool)
      modifies this
      ensures OthersOnly() && (ok ==> lease == Mine) && seenMine == (old(seenMine) || ok)
      ensures overtaken == old(overtaken) && (Faultless() ==> (ok <==> lease == Mine))
      ensures log == old(log) + if ok then [OwnerSeen] else []
    {
      Others();
      ok := *;
      if lease != Mine { ok := false; } else if !ok { faults := faults + 1; }
      seenMine := seenMine || ok;
      if ok { log := log + [OwnerSeen]; }
    }

    method AssertSinkShape(disabled: bool) returns (ok: bool)
      modifies this
      ensures OthersOnly() && (ok ==> sinkOn == !disabled) && seenMine == old(seenMine)
      ensures overtaken == old(overtaken) && (Faultless() ==> (ok <==> sinkOn == !disabled))
      ensures log == old(log) + if ok then [SinkSeen(!disabled)] else []
    {
      Others();
      ok := *;
      if sinkOn == disabled { ok := false; } else if !ok { faults := faults + 1; }
      if ok { log := log + [SinkSeen(!disabled)]; }
    }

    method AssertTraffic(revision: string) returns (ok: bool)
      modifies this
      ensures OthersOnly() && (ok ==> traffic == revision)
      ensures overtaken == old(overtaken) && (Faultless() ==> (ok <==> traffic == revision))
      ensures log == old(log) + if ok then [TrafficSeen(revision)] else []
    {
      Others();
      ok := *;
      if traffic != revision { ok := false; } else if !ok { faults := faults + 1; }
      if ok { log := log + [TrafficSeen(revision)]; }
    }

    method CurrentTraffic() returns (revision: string)
      modifies this
      ensures OthersOnly() && (revision == "" || revision == traffic)
      ensures overtaken == old(overtaken) && (Faultless() ==> revision == traffic)
    {
      Others();
      revision := traffic;
      if * {
        revision := "";
        faults := faults + 1;
      }
    }

    /** A check of things this run never changes. */
    method Check(what: string) returns (ok: bool)
      modifies this
      ensures OthersOnly() && seenMine == old(seenMine)
      ensures overtaken == old(overtaken) && (Faultless() ==> ok)
      ensures log == old(log) + if ok then [Checked(what)] else []
    {
      Others();
      ok := *;
      if ok { log := log + [Checked(what)]; } else { faults := faults + 1; }
    }

    /** A request id shows up in the log store, delivered by the candidate. */
    method WaitForLoki(throughSink: bool) returns (ok: bool)
      modifies this
      ensures (lease == Mine <==> old(lease) == Mine) && (lease == Mine ==> View() == old(View()))
      ensures proof == old(proof)
      ensures found == old(found) && gaveUp == old(gaveUp) && writes == old(writes) && seenMine == old(seenMine)
      ensures directProof == (old(directProof) || (ok && !throughSink))
      ensures sinkProof == (old(sinkProof) || (ok && throughSink))
      ensures faults >= old(faults) && moves >= old(moves) && overtaken == old(overtaken) && (Faultless() ==> ok)
      ensures moves == old(moves) ==> lease == old(lease) && View() == old(View())
      ensures log == old(log) + if ok then [Delivered(throughSink)] else []
    {
      Others();
      ok := *;
      if ok { log := log + [Delivered(throughSink)]; } else { faults := faults + 1; }
      if ok && throughSink { sinkProof := true; }
      if ok && !throughSink { directProof := true; }
    }

    method LeaseAbsent() returns (absent: bool)
      modifies this
      ensures OthersOnly() && (absent ==> lease != Mine)
      ensures Faultless() && !absent ==> lease != Free
      ensures overtaken == (old(overtaken) || (!absent && lease == Foreign))
      ensures log == old(log) + if absent then [LeaseGone] else []
    {
      for i := 0 to 3
        invariant OthersOnly() && overtaken == old(overtaken) && log == old(log)
        invariant Faultless() && i > 0 ==> lease != Free
      {
        Others();
        if lease == Free {
          if * {
            log := log + [LeaseGone];
            return true;
          }
          faults := faults + 1;
        }
      }
      overtaken := overtaken || lease == Foreign;
      return false;
    }

    method ProofAbsent() returns (absent: bool)
      modifies this
      ensures OthersOnly() && (absent ==> !proof)
      ensures overtaken == old(overtaken) && (Faultless() ==> (absent <==> !proof))
      ensures log == old(log) + if absent then [ProofGone] else []
    {
      for i := 0 to 3
        invariant OthersOnly() && overtaken == old(overtaken) && log == old(log)
        invariant Faultless() && i > 0 ==> proof
      {
        Others();
        if !proof {
          if * {
            log := log + [ProofGone];
            return true;
          }
          faults := faults + 1;
        }
      }
      return false;
    }

    /** Creating the fixed name is atomic: it works only when nobody holds it. */
    method CreateLease() returns (ok: bool)
      requires lease != Mine && found == None && gaveUp == None && !seenMine
      modifies this
      ensures (ok ==> lease == Mine) && seenMine == ok
      ensures lease == Mine ==> found == Some(View())
      ensures lease != Mine ==> found == None
      ensures proof == old(proof) && gaveUp == None && writes == old(writes) && Proofs() == old(Proofs())
      ensures faults >= old(faults) && moves >= old(moves) && overtaken == old(overtaken)
      ensures Faultless() ==> lease == if ok then Mine else Foreign
      ensures moves == old(moves) ==> View() == old(View()) && (lease == Foreign ==> old(lease) == Foreign)
      ensures log == old(log) + if ok then [Created] else []
    {
      Others();
      ok := false;
      if lease == Free {
        if * {
          lease := Mine;
          found := Some(View());
          ok := *;
        }
        if !ok { faults := faults + 1; }
      }
      seenMine := ok;
      if ok { log := log + [Created]; }
    }

    method DeleteLease()
      requires lease == Mine && gaveUp == None
      modifies this
      ensures found == old(found) && writes == old(writes) && proof == old(proof) && Proofs() == old(Proofs())
      ensures seenMine == old(seenMine)
      ensures lease == Mine ==> View() == old(View()) && gaveUp == None
      ensures lease != Mine ==> gaveUp == Some(old(View()))
      ensures faults >= old(faults) && moves >= old(moves) && overtaken == old(overtaken)
      ensures Faultless() ==> lease != Mine
      ensures moves == old(moves) ==> lease != Foreign
      ensures log == old(log)
    {
      if * {
        gaveUp := Some(View());
        lease := Free;
        Others();
      } else {
        faults := faults + 1;
      }
    }

    method SetSink(on: bool) returns (ok: bool)
      requires lease == Mine && directProof
      modifies this
      ensures lease == Mine && found == old(found) && gaveUp == old(gaveUp) && writes == old(writes) + 1
      ensures Proofs() == old(Proofs())
      ensures seenMine == old(seenMine)
      ensures traffic == old(traffic) && proof == old(proof) && (sinkOn == on || sinkOn == old(sinkOn))
      ensures ok ==> sinkOn == on
      ensures faults == old(faults) + (if ok then 0 else 1) && moves == old(moves) && overtaken == old(overtaken)
      ensures log == old(log) + if ok then [SinkSet(on)] else []
    {
      writes := writes + 1;
      ok := false;
      if * { sinkOn := on; ok := *; }
      if ok { log := log + [SinkSet(on)]; } else { faults := faults + 1; }
    }

    method SetTraffic(revision: string) returns (ok: bool)
      requires lease == Mine && directProof
      modifies this
      ensures lease == Mine && found == old(found) && gaveUp == old(gaveUp) && writes == old(writes) + 1
      ensures Proofs() == old(Proofs())
      ensures seenMine == old(seenMine)
      ensures sinkOn == old(sinkOn) && proof == old(proof)
      ensures (traffic == revision || traffic == old(traffic)) && (ok ==> traffic == revision)
      ensures faults == old(faults) + (if ok then 0 else 1) && moves == old(moves) && overtaken == old(overtaken)
      ensures log == old(log) + if ok then [TrafficSet(revision)] else []
    {
      writes := writes + 1;
      ok := false;
      if * { traffic := revision; ok := *; }
      if ok { log := log + [TrafficSet(revision)]; } else { faults := faults + 1; }
    }

    method SetProof(present: bool) returns (ok: bool)
      modifies this
      ensures (lease == Mine <==> old(lease) == Mine) && found == old(found) && gaveUp == old(gaveUp)
      ensures writes == old(writes)
      ensures Proofs() == old(Proofs()) && seenMine == old(seenMine)
      ensures lease == Mine ==> sinkOn == old(sinkOn) && traffic == old(traffic)
      ensures (proof == present || proof == old(proof)) && (ok ==> proof == present)
      ensures faults == old(faults) + (if ok then 0 else 1) && moves >= old(moves) && overtaken == old(overtaken)
      ensures moves == old(moves) ==> lease == old(lease) && sinkOn == old(sinkOn) && traffic == old(traffic)
      ensures log == old(log) + if ok then [ProofSet(present)] else []
    {
      Others();
      ok := false;
      if * { proof := present; ok := *; }
      if ok { log := log + [ProofSet(present)]; } else { faults := faults + 1; }
    }
  }

  // ---- what a successful run has confirmed ------------------------------------------------------

  function TopologyLog(sinkOn: bool): seq<Event> { [OwnerSeen, SinkSeen(sinkOn), Checked("topology")] }

  function CleanupLog(): seq<Event> {
    [Checked("proof is there"), Checked("proof owner"), ProofSet(false), ProofGone]
  }

  /** The isolated proof delivers, and goes away again. */
  function ProofLog(): seq<Event> {
    [OwnerSeen, ProofSet(true), Checked("proof subscription"), Delivered(false)] + CleanupLog()
  }

  function PromotionLog(previous: string, candidate: string): seq<Event> {
    [OwnerSeen] + TopologyLog(false) + [TrafficSeen(previous)] +
    (if previous == candidate then [] else [TrafficSet(candidate)]) + [TrafficSeen(candidate)]
  }

  function TurnOnLog(candidate: string): seq<Event> {
    [OwnerSeen] + TopologyLog(false) + [TrafficSeen(candidate), SinkSet(true)] + TopologyLog(true)
  }

  function ProveSinkLog(candidate: string): seq<Event> {
    [Delivered(true), OwnerSeen] + TopologyLog(true) + [TrafficSeen(candidate), Checked("tags removed")]
  }

  function SinkLog(candidate: string): seq<Event> { TurnOnLog(candidate) + ProveSinkLog(candidate) }

  /** Everything between taking and releasing the lease. */
  function LeaseLog(previous: string, candidate: string, enableSink: bool): seq<Event> {
    TopologyLog(false) + [TrafficSeen(previous)] + ProofLog() + PromotionLog(previous, candidate) +
    if enableSink then SinkLog(candidate) else TopologyLog(false)
  }

  /** The whole run up to the release; `taken` is what showed the lease to be ours. */
  function RunLog(taken: Event, previous: string, candidate: string, enableSink: bool): seq<Event> {
    [SinkSeen(false), Checked("topology"), taken, OwnerSeen] + LeaseLog(previous, candidate, enableSink)
  }

  lemma RunIsLogged(before: seq<Event>, taken: Event, previous: string, candidate: string, enableSink: bool,
                    released: seq<Event>, log: seq<Event>)
    requires log == before + [SinkSeen(false)] + [Checked("topology")] + [taken, OwnerSeen] +
      LeaseLog(previous, candidate, enableSink) + released
    ensures log == before + RunLog(taken, previous, candidate, enableSink) + released
  {
    hide LeaseLog;
  }

  /** The lease is deleted in up to three attempts, each while it is surely still ours. */
  ghost predicate IsReleaseLog(log: seq<Event>) {
    1 < |log| <= 4 && log[|log| - 1] == LeaseGone && forall i :: 0 <= i < |log| - 1 ==> log[i] == OwnerSeen
  }

  lemma ReleaseIsLogged(before: seq<Event>, log: seq<Event>)
    requires before <= log && |before| + 1 < |log| <= |before| + 4 && log[|log| - 1] == LeaseGone
    requires forall i :: |before| <= i < |log| - 1 ==> log[i] == OwnerSeen
    ensures exists released :: IsReleaseLog(released) && log == before + released
  {
    var released := log[|before|..];
    assert IsReleaseLog(released) && log == before + released;
  }

  class Verifier {
    const cloud: Cloud
    const previous: string
    const candidate: string
    var leaseHeld: bool
    var releaseUncertain: bool
    var proofCreated: bool
    var promotionAttempted: bool
    var sinkEnabledByRun: bool
    /** How many shared writes had been issued when the release became uncertain. */
    ghost var writesAtRelease: nat

    constructor (cloud: Cloud, previous: string, candidate: string)
      requires cloud.lease != Mine && cloud.found == None && cloud.gaveUp == None && !cloud.proof && cloud.writes == 0
      requires !cloud.seenMine && previous != ""
      ensures this.cloud == cloud && this.previous == previous && this.candidate == candidate && Valid()
      ensures !leaseHeld && !releaseUncertain && !proofCreated && !promotionAttempted && !sinkEnabledByRun
    {
      this.cloud, this.previous, this.candidate := cloud, previous, candidate;
      leaseHeld, releaseUncertain := false, false;
      proofCreated, promotionAttempted, sinkEnabledByRun := false, false, false;
    }

    /** Each flag is raised before the command it covers, so what is not flagged is still as it was found. */
    ghost predicate Valid()
      reads this, cloud
    {
      previous != "" && (leaseHeld && !releaseUncertain ==> cloud.lease == Mine) && (leaseHeld ==> cloud.seenMine) &&
      (cloud.lease == Mine ==>
        cloud.gaveUp == None && cloud.found.Some? &&
        (!sinkEnabledByRun ==> cloud.sinkOn == cloud.found.value.sinkOn) &&
        (!promotionAttempted ==> cloud.traffic == cloud.found.value.traffic) &&
        (promotionAttempted ==> cloud.traffic == previous || cloud.traffic == candidate)) &&
      (cloud.proof ==> proofCreated) &&
      (sinkEnabledByRun ==> cloud.found.Some? && !cloud.found.value.sinkOn) &&
      (promotionAttempted ==> cloud.found.Some? && cloud.found.value.traffic == previous) &&
      (sinkEnabledByRun || promotionAttempted || proofCreated || releaseUncertain ==> leaseHeld) &&
      (sinkEnabledByRun || promotionAttempted || cloud.writes > 0 ==> cloud.directProof) &&
      (releaseUncertain ==> cloud.writes == writesAtRelease)
    }

    /**
     A failure may still have created the lease: when neither the answer nor the readback showed it, the
     lease stays ours and nobody knows.
     */
    method AcquireLease() returns (ok: bool)
      requires Valid() && !leaseHeld && cloud.lease != Mine && cloud.found == None && cloud.gaveUp == None
      requires !cloud.seenMine
      modifies this, cloud
      ensures Valid() && !releaseUncertain && cloud.gaveUp == None && cloud.writes == old(cloud.writes)
      ensures !sinkEnabledByRun && !promotionAttempted && !proofCreated
      ensures (ok ==> leaseHeld) && leaseHeld == cloud.seenMine
      ensures cloud.lease == Mine <==> cloud.found.Some?
      ensures cloud.faults >= old(cloud.faults) && cloud.moves >= old(cloud.moves)
      ensures cloud.overtaken == old(cloud.overtaken)
      ensures cloud.Calm() && old(cloud.lease) == Free ==> ok && cloud.found == Some(old(cloud.View()))
      ensures ok ==> exists taken ::
        (taken == Created || taken == OwnerSeen) && cloud.log == old(cloud.log) + [taken, OwnerSeen]
    {
      var created := cloud.CreateLease();
      if created {
        leaseHeld := true;
      } else {
        var own := cloud.AssertLeaseOwner();
        if !own { return false; }
        leaseHeld := true;
      }
      ok := cloud.AssertLeaseOwner();
      ghost var taken := if created then Created else OwnerSeen;
      assert ok ==> cloud.log == old(cloud.log) + [taken, OwnerSeen];
    }

    /** A true answer: the lease is gone, and the shared state was untouched until then. */
    method ReleaseLease() returns (ok: bool)
      requires Valid() && !releaseUncertain
      modifies this, cloud
      ensures sinkEnabledByRun == old(sinkEnabledByRun) && promotionAttempted == old(promotionAttempted)
      ensures proofCreated == old(proofCreated)
      ensures cloud.found == old(cloud.found) && cloud.Proofs() == old(cloud.Proofs())
      ensures cloud.writes == old(cloud.writes) && cloud.proof == old(cloud.proof)
      ensures !old(leaseHeld) ==> ok && unchanged(this) && unchanged(cloud)
      ensures ok ==> !leaseHeld && !releaseUncertain
      ensures ok && old(leaseHeld) ==> cloud.lease != Mine && cloud.gaveUp == Some(old(cloud.View()))
      ensures old(cloud.seenMine) ==> cloud.seenMine
      ensures !ok ==> leaseHeld && Valid()
      ensures !ok && !releaseUncertain ==> cloud.lease == Mine && cloud.View() == old(cloud.View())
      ensures cloud.faults >= old(cloud.faults) && cloud.moves >= old(cloud.moves)
      ensures cloud.Faultless() && old(leaseHeld) ==> cloud.lease != Mine && cloud.gaveUp == Some(old(cloud.View()))
      ensures cloud.Faultless() ==> ok || cloud.overtaken
      ensures ok ==> cloud.overtaken == old(cloud.overtaken)
      ensures cloud.Calm() ==> ok
      ensures !ok && !releaseUncertain ==> cloud.faults >= old(cloud.faults) + 3
      ensures ok && old(leaseHeld) ==> exists released ::
        IsReleaseLog(released) && cloud.log == old(cloud.log) + released
    {
      hide IsReleaseLog;
      if !leaseHeld { return true; }
      var absent := cloud.LeaseAbsent();
      if absent { assert false; } // nobody else deletes a lease that is ours
      ok := Keep();
      if !ok { return false; }
      var attempt := 1;
      while attempt <= 3
        invariant cloud.lease == Mine && cloud.View() == old(cloud.View()) && cloud.gaveUp == None
        invariant cloud.found == old(cloud.found) && cloud.Proofs() == old(cloud.Proofs())
        invariant cloud.writes == old(cloud.writes)
        invariant unchanged(this) && (old(cloud.seenMine) ==> cloud.seenMine)
        invariant cloud.faults >= old(cloud.faults) && cloud.moves >= old(cloud.moves)
        invariant cloud.overtaken == old(cloud.overtaken)
        invariant attempt <= 4 && cloud.faults >= old(cloud.faults) + attempt - 1
        invariant |cloud.log| == |old(cloud.log)| + attempt && old(cloud.log) <= cloud.log
        invariant forall i :: |old(cloud.log)| <= i < |cloud.log| ==> cloud.log[i] == OwnerSeen
      {
        cloud.DeleteLease();
        absent := cloud.LeaseAbsent();
        if absent {
          ReleaseIsLogged(old(cloud.log), cloud.log);
          leaseHeld, releaseUncertain := false, false;
          return true;
        }
        ok := Keep();
        if !ok { return false; }
        attempt := attempt + 1;
      }
      return false;
    }

    /** Goes on only while the lease is surely ours; otherwise the release is uncertain. */
    method Keep() returns (ok: bool)
      modifies this, cloud
      ensures cloud.OthersOnly()
      ensures ok ==> cloud.lease == Mine && unchanged(this)
      ensures !ok ==> releaseUncertain && writesAtRelease == cloud.writes && leaseHeld == old(leaseHeld)
      ensures sinkEnabledByRun == old(sinkEnabledByRun) && promotionAttempted == old(promotionAttempted)
      ensures proofCreated == old(proofCreated) && cloud.overtaken == old(cloud.overtaken)
      ensures cloud.Faultless() ==> (ok <==> cloud.lease == Mine)
      ensures ok ==> cloud.log == old(cloud.log) + [OwnerSeen]
    {
      ok := cloud.AssertLeaseOwner();
      if !ok {
        releaseUncertain := true;
        writesAtRelease := cloud.writes;
      }
    }

    /** Up to three attempts. */
    method DeleteProof() returns (deleted: bool)
      requires cloud.lease == Mine
      modifies cloud
      ensures cloud.lease == Mine && cloud.found == old(cloud.found) && cloud.Proofs() == old(cloud.Proofs())
      ensures cloud.gaveUp == old(cloud.gaveUp) && cloud.seenMine == old(cloud.seenMine)
      ensures cloud.writes == old(cloud.writes)
      ensures cloud.sinkOn == old(cloud.sinkOn) && cloud.traffic == old(cloud.traffic)
      ensures (cloud.proof ==> old(cloud.proof)) && (deleted ==> !cloud.proof)
      ensures cloud.faults >= old(cloud.faults) && cloud.moves >= old(cloud.moves)
      ensures cloud.overtaken == old(cloud.overtaken) && (!deleted ==> cloud.faults == old(cloud.faults) + 3)
      ensures cloud.log == old(cloud.log) + if deleted then [ProofSet(false)] else []
    {
      deleted := cloud.SetProof(false);
      var attempt := 1;
      while !deleted && attempt < 3
        invariant cloud.lease == Mine && cloud.found == old(cloud.found) && cloud.Proofs() == old(cloud.Proofs())
        invariant cloud.gaveUp == old(cloud.gaveUp) && cloud.seenMine == old(cloud.seenMine)
        invariant cloud.writes == old(cloud.writes)
        invariant cloud.sinkOn == old(cloud.sinkOn) && cloud.traffic == old(cloud.traffic)
        invariant (cloud.proof ==> old(cloud.proof)) && (deleted ==> !cloud.proof)
        invariant cloud.faults >= old(cloud.faults) && cloud.moves >= old(cloud.moves)
        invariant cloud.overtaken == old(cloud.overtaken) && attempt <= 3
        invariant !deleted ==> cloud.faults == old(cloud.faults) + attempt
        invariant cloud.log == old(cloud.log) + if deleted then [ProofSet(false)] else []
      {
        deleted := cloud.SetProof(false);
        attempt := attempt + 1;
      }
    }

    method CleanupProof() returns (ok: bool)
      requires Valid() && !releaseUncertain && leaseHeld
      modifies this, cloud
      ensures Valid() && leaseHeld && !releaseUncertain && cloud.found == old(cloud.found)
      ensures cloud.Proofs() == old(cloud.Proofs()) && cloud.writes == old(cloud.writes)
      ensures cloud.sinkOn == old(cloud.sinkOn) && cloud.traffic == old(cloud.traffic)
      ensures sinkEnabledByRun == old(sinkEnabledByRun) && promotionAttempted == old(promotionAttempted)
      ensures ok ==> !proofCreated && !cloud.proof
      ensures ok && old(cloud.proof) ==> cloud.log == old(cloud.log) + CleanupLog()
      ensures cloud.faults >= old(cloud.faults) && cloud.moves >= old(cloud.moves)
      ensures cloud.overtaken == old(cloud.overtaken)
      ensures cloud.Faultless() ==> ok
    {
      if !proofCreated { return true; }
      var described := cloud.Check("proof is there");
      if described && cloud.proof {
        var owned := cloud.Check("proof owner");
        if !owned { return false; }
        var deleted := DeleteProof();
        if !deleted { return false; }
      }
      var absent := cloud.ProofAbsent();
      if !absent { return false; }
      proofCreated := false;
      return true;
    }

    /** Up to three attempts; whether one worked is read back later. */
    method SwitchBack()
      requires cloud.lease == Mine && cloud.directProof && (cloud.traffic == previous || cloud.traffic == candidate)
      modifies cloud
      ensures cloud.lease == Mine && cloud.found == old(cloud.found) && cloud.Proofs() == old(cloud.Proofs())
      ensures cloud.gaveUp == old(cloud.gaveUp) && cloud.seenMine == old(cloud.seenMine)
      ensures cloud.sinkOn == old(cloud.sinkOn) && cloud.proof == old(cloud.proof)
      ensures cloud.traffic == previous || cloud.traffic == old(cloud.traffic)
      ensures cloud.faults >= old(cloud.faults) && cloud.moves == old(cloud.moves)
      ensures cloud.overtaken == old(cloud.overtaken)
      ensures cloud.traffic != previous ==> cloud.faults == old(cloud.faults) + 3
    {
      var done := cloud.SetTraffic(previous);
      var attempt := 1;
      while !done && attempt < 3
        invariant cloud.lease == Mine && cloud.found == old(cloud.found) && cloud.Proofs() == old(cloud.Proofs())
        invariant cloud.gaveUp == old(cloud.gaveUp) && cloud.seenMine == old(cloud.seenMine)
        invariant cloud.sinkOn == old(cloud.sinkOn) && cloud.proof == old(cloud.proof)
        invariant cloud.traffic == previous || cloud.traffic == old(cloud.traffic)
        invariant cloud.faults >= old(cloud.faults) && cloud.moves == old(cloud.moves)
        invariant cloud.overtaken == old(cloud.overtaken) && attempt <= 3
        invariant if done then cloud.traffic == previous else cloud.faults == old(cloud.faults) + attempt
      {
        done := cloud.SetTraffic(previous);
        attempt := attempt + 1;
      }
    }

    method RestoreTraffic() returns (ok: bool)
      requires Valid() && !releaseUncertain && leaseHeld
      modifies this, cloud
      ensures Valid() && leaseHeld && !releaseUncertain && cloud.found == old(cloud.found)
      ensures cloud.Proofs() == old(cloud.Proofs())
      ensures cloud.sinkOn == old(cloud.sinkOn) && cloud.proof == old(cloud.proof)
      ensures sinkEnabledByRun == old(sinkEnabledByRun) && proofCreated == old(proofCreated)
      ensures ok ==> !promotionAttempted && cloud.traffic == cloud.found.value.traffic
      ensures cloud.faults >= old(cloud.faults) && cloud.moves >= old(cloud.moves)
      ensures cloud.overtaken == old(cloud.overtaken)
      ensures cloud.Faultless() ==> ok
    {
      if !promotionAttempted { return true; }
      var current := cloud.CurrentTraffic();
      if current == previous {
        promotionAttempted := false;
        return true;
      }
      if current != candidate { return false; }
      var own := cloud.AssertLeaseOwner();
      if !own { return false; }
      SwitchBack();
      current := cloud.CurrentTraffic();
      if current != previous { return false; }
      promotionAttempted := false;
      return true;
    }

    /** Up to three attempts. */
    method TurnOff() returns (done: bool)
      requires cloud.lease == Mine && cloud.directProof
      modifies cloud
      ensures cloud.lease == Mine && cloud.found == old(cloud.found) && cloud.Proofs() == old(cloud.Proofs())
      ensures cloud.gaveUp == old(cloud.gaveUp) && cloud.seenMine == old(cloud.seenMine)
      ensures cloud.traffic == old(cloud.traffic) && cloud.proof == old(cloud.proof)
      ensures cloud.faults >= old(cloud.faults) && cloud.moves == old(cloud.moves)
      ensures cloud.overtaken == old(cloud.overtaken)
      ensures if done then !cloud.sinkOn else cloud.faults == old(cloud.faults) + 3
    {
      done := cloud.SetSink(false);
      var attempt := 1;
      while !done && attempt < 3
        invariant cloud.lease == Mine && cloud.found == old(cloud.found) && cloud.Proofs() == old(cloud.Proofs())
        invariant cloud.gaveUp == old(cloud.gaveUp) && cloud.seenMine == old(cloud.seenMine)
        invariant cloud.traffic == old(cloud.traffic) && cloud.proof == old(cloud.proof)
        invariant cloud.faults >= old(cloud.faults) && cloud.moves == old(cloud.moves)
        invariant cloud.overtaken == old(cloud.overtaken) && attempt <= 3
        invariant if done then !cloud.sinkOn else cloud.faults == old(cloud.faults) + attempt
      {
        done := cloud.SetSink(false);
        attempt := attempt + 1;
      }
    }

    method DisableSink() returns (ok: bool)
      requires Valid() && !releaseUncertain && leaseHeld
      modifies this, cloud
      ensures Valid() && leaseHeld && !releaseUncertain && cloud.found == old(cloud.found)
      ensures cloud.Proofs() == old(cloud.Proofs())
      ensures cloud.traffic == old(cloud.traffic) && cloud.proof == old(cloud.proof)
      ensures promotionAttempted == old(promotionAttempted) && proofCreated == old(proofCreated)
      ensures ok ==> !sinkEnabledByRun && cloud.sinkOn == cloud.found.value.sinkOn
      ensures cloud.faults >= old(cloud.faults) && cloud.moves >= old(cloud.moves)
      ensures cloud.overtaken == old(cloud.overtaken)
      ensures cloud.Faultless() ==> ok
    {
      if !sinkEnabledByRun { return true; }
      var own := cloud.AssertLeaseOwner();
      if !own { return false; }
      var done := TurnOff();
      if !done { return false; }
      var shaped := cloud.AssertSinkShape(true);
      if !shaped { return false; }
      sinkEnabledByRun := false;
      return true;
    }

    /** The exit trap. After an uncertain release it issues no command at all. */
    method Rollback() returns (exit: Exit)
      requires Valid()
      modifies this, cloud
      ensures exit == Failed || exit == Incomplete
      ensures old(releaseUncertain) ==> exit == Incomplete && unchanged(cloud) && unchanged(this)
      ensures !old(leaseHeld) ==> exit == Failed && unchanged(cloud)
      ensures exit == Failed && old(leaseHeld) ==>
        cloud.found.Some? && cloud.gaveUp == Some(cloud.found.value.(proof := false))
      ensures exit == Failed && old(leaseHeld) ==> cloud.lease != Mine && cloud.seenMine
      ensures releaseUncertain ==> exit == Incomplete && cloud.writes == writesAtRelease
      ensures cloud.writes > 0 ==> cloud.directProof
      ensures cloud.faults >= old(cloud.faults) && cloud.moves >= old(cloud.moves)
      ensures cloud.Faultless() && old(leaseHeld) && !old(releaseUncertain) ==>
        cloud.lease != Mine && cloud.found.Some? && cloud.gaveUp == Some(cloud.found.value.(proof := false)) &&
        (exit == Failed || cloud.overtaken)
      ensures exit == Failed ==> cloud.overtaken == old(cloud.overtaken)
      ensures cloud.Calm() && !old(releaseUncertain) ==> exit == Failed
    {
      if releaseUncertain { return Incomplete; }
      if !leaseHeld { return Failed; }
      var failures := 0;
      var ok := DisableSink();
      if !ok { failures := failures + 1; }
      ok := CleanupProof();
      if !ok { failures := failures + 1; }
      ok := RestoreTraffic();
      if !ok { failures := failures + 1; }
      if failures == 0 {
        ok := ReleaseLease();
        if !ok { failures := failures + 1; }
      }
      return if failures != 0 then Incomplete else Failed;
    }

    /** The lease, the sink and everything this run never changes. */
    method AssertTopology(disabled: bool) returns (ok: bool)
      modifies cloud
      ensures cloud.OthersOnly() && (ok && cloud.lease == Mine ==> cloud.sinkOn == !disabled)
      ensures cloud.overtaken == old(cloud.overtaken)
      ensures cloud.Faultless() && cloud.lease == Mine ==> (ok <==> cloud.sinkOn == !disabled)
      ensures ok ==> cloud.log == old(cloud.log) + TopologyLog(!disabled)
    {
      ok := cloud.AssertLeaseOwner();
      if !ok { return; }
      ok := cloud.AssertSinkShape(disabled);
      if !ok { return; }
      ok := cloud.Check("topology");
    }

    /** The lease was created, but neither the answer to the command nor the readback of its owner arrived. */
    ghost predicate LostAcquisition()
      reads this, cloud
    {
      cloud.found.Some? && !cloud.seenMine
    }

    /**
     The whole run. A run that exits with another status than 0 and 70 has either written nothing, or given up
     the lease with sink and traffic as it found them and without its proof subscription. It leaves the lease
     held exactly when the acquisition was lost. Once the release is uncertain no shared write follows; no
     shared write comes before the isolated proof, and success has seen every proof it claims.
     */
    method Run(enableSink: bool) returns (exit: Exit)
      requires Valid() && !leaseHeld && cloud.lease != Mine && cloud.found == None && cloud.gaveUp == None
      requires candidate != "" && !cloud.seenMine
      modifies this, cloud
      ensures exit == Success ==> cloud.gaveUp == Some(Shared(enableSink, candidate, false)) && cloud.lease != Mine
      ensures exit == Success ==> cloud.directProof && (enableSink ==> cloud.sinkProof)
      ensures exit == Success ==> exists taken, released ::
        (taken == Created || taken == OwnerSeen) && IsReleaseLog(released) &&
        cloud.log == old(cloud.log) + RunLog(taken, previous, candidate, enableSink) + released
      ensures cloud.writes > 0 ==> cloud.directProof
      ensures exit == Failed && cloud.gaveUp == None ==> cloud.writes == old(cloud.writes) && !cloud.proof
      ensures exit == Failed && cloud.gaveUp.Some? ==>
        cloud.found.Some? && cloud.gaveUp == Some(cloud.found.value.(proof := false))
      ensures exit == Failed ==> (cloud.lease == Mine <==> LostAcquisition())
      ensures releaseUncertain ==> exit == Incomplete && cloud.writes == writesAtRelease
      ensures cloud.Calm() && old(cloud.lease) == Free && !old(cloud.sinkOn) && old(cloud.traffic) == previous ==>
        exit == Success
      ensures cloud.Faultless() && exit == Incomplete ==> cloud.overtaken
    {
      var ok := cloud.AssertSinkShape(true);
      if !ok { return Failed; }
      ok := cloud.Check("topology");
      if !ok { return Failed; }
      ghost var start := cloud.log;
      ok := AcquireLease();
      if ok {
        ghost var taken :| (taken == Created || taken == OwnerSeen) && cloud.log == start + [taken, OwnerSeen];
        hide LeaseLog, IsReleaseLog, RunLog;
        ok := UnderLease(enableSink);
        if ok {
          ghost var released :| IsReleaseLog(released) &&
            cloud.log == start + [taken, OwnerSeen] + LeaseLog(previous, candidate, enableSink) + released;
          RunIsLogged(old(cloud.log), taken, previous, candidate, enableSink, released, cloud.log);
          return Success;
        }
      }
      exit := Rollback();
    }

    /** Everything between taking and releasing the lease; the first failing command ends it. */
    method UnderLease(enableSink: bool) returns (ok: bool)
      requires Valid() && leaseHeld && !releaseUncertain && !sinkEnabledByRun && !promotionAttempted && !proofCreated
      requires candidate != ""
      modifies this, cloud
      ensures ok ==> cloud.gaveUp == Some(Shared(enableSink, candidate, false)) && !releaseUncertain
      ensures ok ==> cloud.lease != Mine
      ensures ok ==> cloud.directProof && (enableSink ==> cloud.sinkProof)
      ensures !ok ==> Valid() && leaseHeld
      ensures cloud.faults >= old(cloud.faults) && cloud.moves >= old(cloud.moves)
      ensures cloud.Calm() && !old(cloud.sinkOn) && old(cloud.traffic) == previous ==> ok
      ensures ok ==> exists released ::
        IsReleaseLog(released) && cloud.log == old(cloud.log) + LeaseLog(previous, candidate, enableSink) + released
      ensures cloud.Faultless() && !ok ==> (releaseUncertain ==> cloud.overtaken)
    {
      hide TopologyLog, ProofLog, PromotionLog, SinkLog, IsReleaseLog;
      ok := BeforeRelease(enableSink);
      if !ok { return; }
      ok := ReleaseLease();
    }

    /** The candidate is proved and takes the traffic, and the sink if it is to. */
    method BeforeRelease(enableSink: bool) returns (ok: bool)
      requires Valid() && leaseHeld && !releaseUncertain && !sinkEnabledByRun && !promotionAttempted && !proofCreated
      requires candidate != ""
      modifies this, cloud
      ensures Valid() && leaseHeld && !releaseUncertain
      ensures ok ==> cloud.View() == Shared(enableSink, candidate, false)
      ensures ok ==> cloud.directProof && (enableSink ==> cloud.sinkProof)
      ensures ok ==> cloud.log == old(cloud.log) + LeaseLog(previous, candidate, enableSink)
      ensures cloud.faults >= old(cloud.faults) && cloud.moves >= old(cloud.moves)
      ensures cloud.overtaken == old(cloud.overtaken)
      ensures cloud.Faultless() && !old(cloud.sinkOn) && old(cloud.traffic) == previous ==> ok
    {
      hide TopologyLog, ProofLog, PromotionLog, SinkLog;
      ok := AssertTopology(true);
      if !ok { return; }
      ok := cloud.AssertTraffic(previous);
      if !ok { return; }
      ok := ProveCandidate();
      if !ok { return; }
      ok := PromoteCandidate();
      if !ok { return; }
      if enableSink { ok := EnableSink(); } else { ok := AssertTopology(true); }
    }

    /** The isolated proof subscription delivers a message to the candidate and goes away again. */
    method ProveCandidate() returns (ok: bool)
      requires Valid() && leaseHeld && !releaseUncertain && !sinkEnabledByRun && !promotionAttempted
      requires !cloud.sinkOn && cloud.traffic == previous
      modifies this, cloud
      ensures Valid() && leaseHeld && !releaseUncertain && !sinkEnabledByRun && !promotionAttempted
      ensures !cloud.sinkOn && cloud.traffic == previous && (ok ==> !proofCreated && cloud.directProof)
      ensures ok ==> cloud.log == old(cloud.log) + ProofLog()
      ensures cloud.faults >= old(cloud.faults) && cloud.moves >= old(cloud.moves)
      ensures cloud.overtaken == old(cloud.overtaken)
      ensures cloud.Faultless() ==> ok
    {
      ok := cloud.AssertLeaseOwner();
      if !ok { return; }
      proofCreated := true;
      ok := cloud.SetProof(true);
      if !ok { return; }
      ok := cloud.Check("proof subscription");
      if !ok { return; }
      ok := cloud.WaitForLoki(false);
      if !ok { return; }
      ok := CleanupProof();
    }

    method PromoteCandidate() returns (ok: bool)
      requires Valid() && leaseHeld && !releaseUncertain && !sinkEnabledByRun && !promotionAttempted && !proofCreated
      requires !cloud.sinkOn && cloud.traffic == previous && cloud.directProof
      modifies this, cloud
      ensures Valid() && leaseHeld && !releaseUncertain && !sinkEnabledByRun && !proofCreated && !cloud.sinkOn
      ensures ok ==> cloud.traffic == candidate && cloud.directProof
      ensures ok ==> cloud.log == old(cloud.log) + PromotionLog(previous, candidate)
      ensures cloud.faults >= old(cloud.faults) && cloud.moves >= old(cloud.moves)
      ensures cloud.overtaken == old(cloud.overtaken)
      ensures cloud.Faultless() ==> ok
    {
      ok := cloud.AssertLeaseOwner();
      if !ok { return; }
      ok := AssertTopology(true);
      if !ok { return; }
      ok := cloud.AssertTraffic(previous);
      if !ok { return; }
      if previous != candidate {
        promotionAttempted := true;
        ok := cloud.SetTraffic(candidate);
        if !ok { return; }
      }
      ok := cloud.AssertTraffic(candidate);
    }

    method EnableSink() returns (ok: bool)
      requires Valid() && leaseHeld && !releaseUncertain && !sinkEnabledByRun && !proofCreated
      requires !cloud.sinkOn && cloud.traffic == candidate && cloud.directProof
      modifies this, cloud
      ensures Valid() && leaseHeld && !releaseUncertain && !proofCreated
      ensures ok ==> cloud.sinkOn && cloud.traffic == candidate && cloud.directProof && cloud.sinkProof
      ensures ok ==> cloud.log == old(cloud.log) + SinkLog(candidate)
      ensures cloud.faults >= old(cloud.faults) && cloud.moves >= old(cloud.moves)
      ensures cloud.overtaken == old(cloud.overtaken)
      ensures cloud.Faultless() ==> ok
    {
      hide TurnOnLog, ProveSinkLog;
      ok := TurnSinkOn();
      if !ok { return; }
      ok := ProveSink();
    }

    method TurnSinkOn() returns (ok: bool)
      requires Valid() && leaseHeld && !releaseUncertain && !sinkEnabledByRun && !proofCreated
      requires !cloud.sinkOn && cloud.traffic == candidate && cloud.directProof
      modifies this, cloud
      ensures Valid() && leaseHeld && !releaseUncertain && !proofCreated
      ensures ok ==> cloud.sinkOn && cloud.traffic == candidate && cloud.directProof
      ensures ok ==> cloud.log == old(cloud.log) + TurnOnLog(candidate)
      ensures cloud.faults >= old(cloud.faults) && cloud.moves >= old(cloud.moves)
      ensures cloud.overtaken == old(cloud.overtaken)
      ensures cloud.Faultless() ==> ok
    {
      hide TopologyLog;
      ok := cloud.AssertLeaseOwner();
      if !ok { return; }
      ok := AssertTopology(true);
      if !ok { return; }
      ok := cloud.AssertTraffic(candidate);
      if !ok { return; }
      sinkEnabledByRun := true;
      ok := cloud.SetSink(true);
      if !ok { return; }
      ok := AssertTopology(false);
    }

    method ProveSink() returns (ok: bool)
      requires Valid() && leaseHeld && !releaseUncertain && !proofCreated
      requires cloud.sinkOn && cloud.traffic == candidate && cloud.directProof
      modifies this, cloud
      ensures Valid() && leaseHeld && !releaseUncertain && !proofCreated
      ensures ok ==> cloud.sinkOn && cloud.traffic == candidate && cloud.directProof && cloud.sinkProof
      ensures ok ==> cloud.log == old(cloud.log) + ProveSinkLog(candidate)
      ensures cloud.faults >= old(cloud.faults) && cloud.moves >= old(cloud.moves)
      ensures cloud.overtaken == old(cloud.overtaken)
      ensures cloud.Faultless() ==> ok
    {
      hide TopologyLog;
      ok := cloud.WaitForLoki(true);
      if !ok { return; }
      ok := cloud.AssertLeaseOwner();
      if !ok { return; }
      ok := AssertTopology(false);
      if !ok { return; }
      ok := cloud.AssertTraffic(candidate);
      if !ok { return; }
      ok := cloud.Check("tags removed");
    }
  }
}
