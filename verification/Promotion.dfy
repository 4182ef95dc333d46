/**
 Directory promotion with rollback (currscript.js:110-224). Every file-system call may throw at any
 point of its progress: a move copies the tree, then drains the source; a removal may stop half way.
 The trail records every state the three directories pass through.
 */
module Promotion {
  datatype Content = Missing | Partial | Complete(version: nat)

  datatype Dir = Destination | Backup | Staging

  datatype Roots = Roots(destination: Content, backup: Content, staging: Content)

  /** How far a call gets before it throws: 0 not at all, 1 copying, 2 copied, 3 draining, 4 done. */
  datatype Fault = Fine | Throws(progress: nat, transient: bool)

  datatype Ending = Returned | Rethrown(backedUp: bool) | RestoreFailed | BackupLeft

  const DONE := 4

  function Get(r: Roots, d: Dir): Content {
    match d case Destination => r.destination case Backup => r.backup case Staging => r.staging
  }

  function Set(r: Roots, d: Dir, c: Content): Roots {
    match d case Destination => r.(destination := c) case Backup => r.(backup := c) case Staging => r.(staging := c)
  }

  function Reach(f: Fault): nat { if f.Fine? || f.progress > DONE then DONE else f.progress }

  function FaultAt(faults: seq<Fault>, i: nat): Fault { if i < |faults| then faults[i] else Fine }

  function Rest(faults: seq<Fault>, n: nat): seq<Fault> { if n <= |faults| then faults[n..] else [] }

  predicate AllFine(faults: seq<Fault>) { forall i :: 0 <= i < |faults| ==> faults[i].Fine? }

  lemma FineIsFine(faults: seq<Fault>, n: nat)
    requires AllFine(faults)
    ensures FaultAt(faults, n).Fine? && AllFine(Rest(faults, n))
  {
  }

  lemma RestOfRest(faults: seq<Fault>, n: nat)
    ensures FaultAt(Rest(faults, n), 0) == FaultAt(faults, n) && Rest(Rest(faults, n), 1) == Rest(faults, n + 1)
  {
  }

  predicate Passing(f: Fault) { f.Throws? && f.transient }

  /** A move after `k` units of progress. */
  function MoveStage(r: Roots, src: Dir, dst: Dir, k: nat): Roots {
    if k == 0 then r
    else if k == 1 then Set(r, dst, Partial)
    else if k == 2 then Set(r, dst, Get(r, src))
    else if k == 3 then Set(Set(r, dst, Get(r, src)), src, Partial)
    else Set(Set(r, dst, Get(r, src)), src, Missing)
  }

  /** A move needs its source and refuses to overwrite. */
  predicate Movable(r: Roots, src: Dir, dst: Dir) { Get(r, src) != Missing && Get(r, dst) == Missing }

  function MoveReach(r: Roots, src: Dir, dst: Dir, f: Fault): nat { if Movable(r, src, dst) then Reach(f) else 0 }

  function MoveTrail(r: Roots, src: Dir, dst: Dir, reach: nat): seq<Roots> {
    seq(reach, i requires 0 <= i < reach => MoveStage(r, src, dst, i + 1))
  }

  function RemoveStage(r: Roots, d: Dir, k: nat): Roots {
    if k == 0 || Get(r, d) == Missing then r else Set(r, d, if k < DONE then Partial else Missing)
  }

  /** A whole tree, the old one or the new one, is where a reader or a rollback can find it. */
  predicate Safe(r: Roots, old': Content, version: nat) {
    r.destination == old' || r.destination == Complete(version) || r.backup == old'
  }

  predicate AllSafe(trail: seq<Roots>, old': Content, version: nat) {
    forall i :: 0 <= i < |trail| ==> Safe(trail[i], old', version)
  }

  lemma MoveStaysSafe(r: Roots, src: Dir, dst: Dir, reach: nat, old': Content, version: nat)
    requires if src == Destination then dst == Backup && r.destination == old'
      else dst == Destination && r.backup == old'
    ensures AllSafe(MoveTrail(r, src, dst, reach), old', version)
  {
    var trail := MoveTrail(r, src, dst, reach);
    forall i | 0 <= i < |trail| ensures Safe(trail[i], old', version) {}
  }

  /** After `before`, only directory `d` of `r` changed. */
  predicate OnlyTouches(trail: seq<Roots>, before: seq<Roots>, r: Roots, d: Dir) {
    |before| <= |trail| && trail[..|before|] == before &&
    forall i :: |before| <= i < |trail| ==> trail[i] == Set(r, d, Get(trail[i], d))
  }

  predicate AllPassing(faults: seq<Fault>, n: int) { forall i :: 0 <= i < n ==> Passing(FaultAt(faults, i)) }

  lemma Untouched(trail: seq<Roots>, faults: seq<Fault>, r: Roots, d: Dir)
    ensures OnlyTouches(trail, trail, r, d) && AllPassing(faults, 0) && AllPassing(faults, -1)
    ensures r == Set(r, d, Get(r, d)) && faults == Rest(faults, 0)
  {
  }

  lemma FewerPass(faults: seq<Fault>, n: int)
    requires AllPassing(faults, n)
    ensures AllPassing(faults, n - 1)
  {
  }

  lemma OneMorePasses(faults: seq<Fault>, n: nat)
    requires AllPassing(faults, n) && Passing(FaultAt(faults, n))
    ensures AllPassing(faults, n + 1)
  {
  }

  lemma SetAgain(r: Roots, d: Dir, c: Content)
    ensures Get(Set(r, d, c), d) == c && forall c' :: Set(Set(r, d, c), d, c') == Set(r, d, c')
  {
  }

  lemma OneMoreTouch(trail: seq<Roots>, before: seq<Roots>, r: Roots, d: Dir, next: Roots)
    requires OnlyTouches(trail, before, r, d) && next == Set(r, d, Get(next, d))
    ensures OnlyTouches(trail + [next], before, r, d)
  {
    assert (trail + [next])[..|before|] == trail[..|before|];
  }

  /** Removing one directory keeps what is safe elsewhere. */
  lemma RemoveStaysSafe(r: Roots, d: Dir, trail: seq<Roots>, before: seq<Roots>, old': Content, version: nat)
    requires AllSafe(before, old', version) && OnlyTouches(trail, before, r, d)
    requires if d == Backup then r.destination == Complete(version) || r.destination == old'
      else if d == Destination then r.backup == old'
      else Safe(r, old', version)
    ensures AllSafe(trail, old', version)
  {
    forall i | 0 <= i < |trail| ensures Safe(trail[i], old', version) {
      if i < |before| { assert trail[i] == trail[..|before|][i]; }
    }
  }

  lemma SafeAppend(a: seq<Roots>, b: seq<Roots>, old': Content, version: nat)
    requires AllSafe(a, old', version) && AllSafe(b, old', version)
    ensures AllSafe(a + b, old', version)
  {
  }

  /**
   The call that may hurt the old tree before it counts as backed up: the third one, a move that throws
   after it began to drain the destination, or on a first publish one that throws after it began to copy.
   */
  predicate Damaged(r: Roots, faults: seq<Fault>) {
    FaultAt(faults, 0).Fine? && FaultAt(faults, 1).Fine? && FaultAt(faults, 2).Throws? &&
    if r.destination != Missing
    then r.backup == Missing && FaultAt(faults, 2).progress > (if r.destination == Partial then 3 else 2)
    else FaultAt(faults, 2).progress > 0
  }

  /** Such schedules exist, on a first publish and on a later one. */
  lemma DamageHappens(old': Content, transient: bool)
    ensures old' != Partial ==> Damaged(Roots(old', Missing, Missing), [Fine, Fine, Throws(3, transient)])
    ensures Damaged(Roots(old', Missing, Missing), [Fine, Fine, Throws(DONE, transient)])
  {
    var partly, fully := [Fine, Fine, Throws(3, transient)], [Fine, Fine, Throws(DONE, transient)];
    assert FaultAt(partly, 2) == Throws(3, transient) && FaultAt(fully, 2) == Throws(DONE, transient);
  }

  lemma FineThroughout(faults: seq<Fault>)
    requires AllFine(faults)
    ensures FaultAt(faults, 0).Fine? && AllFine(Rest(faults, 1)) && FaultAt(Rest(faults, 1), 0).Fine?
    ensures AllFine(Rest(Rest(faults, 1), 1)) && FaultAt(Rest(Rest(faults, 1), 1), 0).Fine?
    ensures AllFine(Rest(Rest(Rest(faults, 1), 1), 1)) && FaultAt(Rest(Rest(Rest(faults, 1), 1), 1), 0).Fine?
    ensures AllFine(Rest(Rest(Rest(Rest(faults, 1), 1), 1), 1))
  {
    hide Rest, AllFine, FaultAt;
    FineIsFine(faults, 0);
    FineIsFine(faults, 1);
    FineIsFine(Rest(faults, 1), 0);
    FineIsFine(Rest(faults, 1), 1);
    FineIsFine(Rest(Rest(faults, 1), 1), 0);
    FineIsFine(Rest(Rest(faults, 1), 1), 1);
    FineIsFine(Rest(Rest(Rest(faults, 1), 1), 1), 0);
    FineIsFine(Rest(Rest(Rest(faults, 1), 1), 1), 1);
  }

  class Files {
    var roots: Roots
    var faults: seq<Fault>
    var trail: seq<Roots>
    /** The moves that were tried. */
    ghost var moves: seq<(Dir, Dir)>

    method NextFault() returns (f: Fault)
      modifies `faults
      ensures f == FaultAt(old(faults), 0) && faults == Rest(old(faults), 1)
    {
      if |faults| == 0 { return Fine; }
      f := faults[0];
      faults := faults[1..];
    }

    method PathExists(d: Dir) returns (exists': bool)
      ensures exists' <==> Get(roots, d) != Missing
    {
      return Get(roots, d) != Missing;
    }

    method EnsureDir() returns (threw: bool)
      modifies this
      ensures threw == FaultAt(old(faults), 0).Throws? && faults == Rest(old(faults), 1)
      ensures roots.destination == old(roots).destination && roots.backup == old(roots).backup
      ensures if threw then roots.staging in [old(roots).staging, Partial]
        else roots.staging == if old(roots).staging == Missing then Partial else old(roots).staging
      ensures trail == old(trail) + [roots] && moves == old(moves)
    {
      var f := NextFault();
      if roots.staging == Missing && Reach(f) == DONE { roots := roots.(staging := Partial); }
      trail := trail + [roots];
      return f.Throws?;
    }

    /** Writes the new package into the staging directory only. */
    method Build(version: nat) returns (threw: bool)
      modifies this
      ensures threw == FaultAt(old(faults), 0).Throws? && faults == Rest(old(faults), 1)
      ensures roots.destination == old(roots).destination && roots.backup == old(roots).backup
      ensures !threw ==> roots.staging == Complete(version)
      ensures trail == old(trail) + [roots] && moves == old(moves)
    {
      var f := NextFault();
      roots := roots.(staging := if f.Fine? then Complete(version) else Partial);
      trail := trail + [roots];
      return f.Throws?;
    }

    method Move(src: Dir, dst: Dir) returns (threw: bool)
      modifies this
      ensures var f := FaultAt(old(faults), 0);
        var reach := MoveReach(old(roots), src, dst, f);
        threw == (f.Throws? || !Movable(old(roots), src, dst)) && roots == MoveStage(old(roots), src, dst, reach) &&
        trail == old(trail) + MoveTrail(old(roots), src, dst, reach)
      ensures faults == Rest(old(faults), 1) && moves == old(moves) + [(src, dst)]
    {
      moves := moves + [(src, dst)];
      ghost var before := roots;
      var content := Get(roots, src);
      var f := NextFault();
      if !Movable(roots, src, dst) { return true; }
      var done := 0;
      while done < Reach(f)
        invariant done <= Reach(f) && content == Get(before, src)
        invariant roots == MoveStage(before, src, dst, done)
        invariant trail == old(trail) + MoveTrail(before, src, dst, done)
        invariant faults == Rest(old(faults), 1) && moves == old(moves) + [(src, dst)]
      {
        done := done + 1;
        if done == 1 { roots := Set(roots, dst, Partial); }
        else if done == 2 { roots := Set(roots, dst, content); }
        else if done == 3 { roots := Set(roots, src, Partial); }
        else { roots := Set(roots, src, Missing); }
        trail := trail + [roots];
      }
      return f.Throws?;
    }

    method RemoveDir(d: Dir) returns (threw: bool, transient: bool)
      modifies this
      ensures var f := FaultAt(old(faults), 0); threw == f.Throws? && transient == (f.Throws? && f.transient)
      ensures faults == Rest(old(faults), 1)
      ensures roots == Set(old(roots), d, Get(roots, d)) && Get(roots, d) in [Get(old(roots), d), Partial, Missing]
      ensures !threw ==> Get(roots, d) == Missing
      ensures trail == old(trail) + [roots] && moves == old(moves)
    {
      var f := NextFault();
      roots := RemoveStage(roots, d, Reach(f));
      trail := trail + [roots];
      return f.Throws?, f.Throws? && f.transient;
    }

    /**
     Only the removed directory changes, and a true answer means it is gone. It gives up after `attempts`
     calls that threw, or earlier on one that threw for a lasting reason.
     */
    method BestEffortRemoveDir(d: Dir, attempts: nat) returns (removed: bool)
      modifies this
      ensures removed ==> Get(roots, d) == Missing
      ensures |trail| <= |old(trail)| + attempts
      ensures !removed && attempts > 0 ==> |trail| > |old(trail)|
      ensures !removed && attempts > 0 ==>
        (|trail| == |old(trail)| + attempts || !Passing(FaultAt(old(faults), |trail| - |old(trail)| - 1)))
      ensures AllPassing(old(faults), |trail| - |old(trail)| - 1)
      ensures AllFine(old(faults)) ==> AllFine(faults) && (attempts > 0 ==> removed)
      ensures roots == Set(old(roots), d, Get(roots, d)) && Get(roots, d) in [Get(old(roots), d), Partial, Missing]
      ensures OnlyTouches(trail, old(trail), old(roots), d) && moves == old(moves)
    {
      hide OnlyTouches, AllPassing, Rest, RemoveStage, Set, Get;
      Untouched(trail, old(faults), roots, d);
      var attempt := 1;
      while attempt <= attempts
        invariant 1 <= attempt <= attempts + 1 && |trail| == |old(trail)| + attempt - 1
        invariant faults == Rest(old(faults), attempt - 1) && AllPassing(old(faults), attempt - 1)
        invariant attempt > attempts ==> attempts == 0
        invariant attempt > 1 ==> !AllFine(old(faults))
        invariant roots == Set(old(roots), d, Get(roots, d)) && Get(roots, d) in [Get(old(roots), d), Partial, Missing]
        invariant OnlyTouches(trail, old(trail), old(roots), d) && moves == old(moves)
      {
        FewerPass(old(faults), attempt - 1);
        if AllFine(old(faults)) { FineIsFine(old(faults), 0); FineIsFine(old(faults), 1); }
        var present := PathExists(d);
        if !present { return true; }
        RestOfRest(old(faults), attempt - 1);
        SetAgain(old(roots), d, Get(roots, d));
        ghost var before := trail;
        var threw, transient := RemoveDir(d);
        SetAgain(old(roots), d, Get(roots, d));
        OneMoreTouch(before, old(trail), old(roots), d, roots);
        if !threw { return true; }
        if !transient || attempt == attempts { return false; }
        OneMorePasses(old(faults), attempt - 1);
        attempt := attempt + 1;
      }
      return false;
    }

    method Attempt(version: nat) returns (threw: bool, backedUp: bool)
      requires roots.destination != Missing ==> AllSafe(trail, roots.destination, version)
      modifies this
      ensures !threw ==> roots.destination == Complete(version) && roots.staging == Missing
      ensures !threw ==> backedUp == (old(roots).destination != Missing)
      ensures backedUp ==> old(roots).destination != Missing && roots.backup == old(roots).destination
      ensures !threw && !backedUp ==> roots.backup == old(roots).backup
      ensures threw && !backedUp ==>
        (roots.destination == old(roots).destination <==> !Damaged(old(roots), old(faults)))
      ensures Damaged(old(roots), old(faults)) ==> threw && !backedUp
      ensures AllFine(old(faults)) ==>
        AllFine(faults) && (threw <==> old(roots).destination != Missing && old(roots).backup != Missing)
      ensures old(roots).destination != Missing ==>
        AllSafe(trail, old(roots).destination, version) && Safe(roots, old(roots).destination, version)
    {
      backedUp := false;
      ghost var old' := roots.destination;
      if AllFine(faults) { FineThroughout(faults); }
      threw := EnsureDir();
      if threw { return; }
      threw := Build(version);
      if threw { return; }
      var present := PathExists(Destination);
      if present {
        ghost var t, r := trail, roots;
        threw := Move(Destination, Backup);
        MoveStaysSafe(r, Destination, Backup, MoveReach(r, Destination, Backup, FaultAt(old(faults), 2)), old',
                      version);
        SafeAppend(t, trail[|t|..], old', version);
        if threw { return; }
        backedUp := true;
      }
      ghost var t, r, f := trail, roots, FaultAt(faults, 0);
      threw := Move(Staging, Destination);
      if present {
        MoveStaysSafe(r, Staging, Destination, MoveReach(r, Staging, Destination, f), old', version);
        SafeAppend(t, trail[|t|..], old', version);
      }
    }

    method Promote(version: nat) returns (ending: Ending)
      requires roots.destination != Missing ==> AllSafe(trail, roots.destination, version)
      modifies this
      ensures ending == Returned ==> roots.destination == Complete(version) && roots.staging == Missing
      ensures ending == Returned ==>
        roots.backup == if old(roots).destination != Missing then Missing else old(roots).backup
      ensures ending == Rethrown(true) ==> roots.destination == old(roots).destination && roots.backup == Missing
      ensures ending == Rethrown(false) ==>
        (roots.destination == old(roots).destination <==> !Damaged(old(roots), old(faults)))
      ensures Damaged(old(roots), old(faults)) ==> ending == Rethrown(false)
      ensures ending == RestoreFailed ==> old(roots).destination in [roots.destination, roots.backup]
      ensures ending == BackupLeft ==> roots.destination == Complete(version) && roots.backup != Missing
      ensures AllFine(old(faults)) ==>
        (ending == Returned <==> old(roots).destination == Missing || old(roots).backup == Missing)
      ensures old(roots).destination != Missing ==> AllSafe(trail, old(roots).destination, version)
    {
      var threw, backedUp := Attempt(version);
      if threw {
        ending := RollBack(backedUp, old(roots).destination, version);
      } else if backedUp {
        ghost var t, r := trail, roots;
        var removed := BestEffortRemoveDir(Backup, 3);
        RemoveStaysSafe(r, Backup, trail, t, old(roots).destination, version);
        if !removed {
          var left := PathExists(Backup);
          if left { return BackupLeft; }
        }
        ending := Returned;
      } else {
        ending := Returned;
      }
    }

    method RollBack(backedUp: bool, ghost old': Content, ghost version: nat) returns (ending: Ending)
      requires backedUp ==> old' != Missing && roots.backup == old'
      requires old' != Missing ==> AllSafe(trail, old', version) && Safe(roots, old', version)
      modifies this
      ensures ending == Rethrown(true) || ending == Rethrown(false) || ending == RestoreFailed
      ensures !backedUp ==> ending == Rethrown(false) && roots.destination == old(roots).destination
      ensures backedUp ==> ending == RestoreFailed || ending == Rethrown(true)
      ensures ending == Rethrown(true) ==> roots.destination == old' && roots.backup == Missing
      ensures ending == RestoreFailed ==> old' in [roots.destination, roots.backup]
      ensures backedUp && AllFine(old(faults)) ==> ending == Rethrown(true)
      ensures backedUp ==>
        if moves == old(moves) then ending == RestoreFailed && roots.destination != Missing
        else moves == old(moves) + [(Backup, Destination)]
      ensures old' != Missing ==> AllSafe(trail, old', version)
    {
      ghost var t, r := trail, roots;
      var ignored := BestEffortRemoveDir(Staging, 3);
      if old' != Missing { RemoveStaysSafe(r, Staging, trail, t, old', version); }
      if !backedUp { return Rethrown(false); }
      t, r := trail, roots;
      var cleared := BestEffortRemoveDir(Destination, 3);
      RemoveStaysSafe(r, Destination, trail, t, old', version);
      if !cleared {
        var left := PathExists(Destination);
        if left { return RestoreFailed; }
      }
      if AllFine(faults) { FineIsFine(faults, 0); }
      ghost var before, from, f := trail, roots, FaultAt(faults, 0);
      // the backup exists: nothing since the move that made it touched it
      var failed := Move(Backup, Destination);
      MoveStaysSafe(from, Backup, Destination, MoveReach(from, Backup, Destination, f), old', version);
      SafeAppend(before, trail[|before|..], old', version);
      return if failed then RestoreFailed else Rethrown(true);
    }
  }
}
