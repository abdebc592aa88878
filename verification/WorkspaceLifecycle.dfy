/**
  The life of a run's workspace: pending, quarantined, copied into a staging directory,
  published under `ready`, consumed, and removed. Every call may fail, and every failure
  has a rollback; the two guards remember what is still to be cleaned.
*/
module WorkspaceLifecycle {
  import opened Common
  import opened WorkspaceTree
  import opened WorkspaceConsumer
  import opened TreeRemoval

  const STAGING_PREFIX: Name := ".seal-"
  const STAGING_ATTEMPTS: nat := 128

  // ----- names -----

  /** The sealer's own test of a run's name, which may besides not be that of a control file. */
  predicate MaySeal(run: Name) {
    IsRunName(run) && |run| <= 64 && !ForbiddenName(run)
  }

  function StagingName(pid: nat, sequence: nat): Name {
    STAGING_PREFIX + Decimal(pid) + "-" + Decimal(sequence)
  }

  predicate IsStagingName(name: Name) {
    STAGING_PREFIX <= name
  }

  lemma StagingIsNoRun(pid: nat, sequence: nat, run: Name)
    requires MaySeal(run)
    ensures IsStagingName(StagingName(pid, sequence)) && StagingName(pid, sequence) != run
  {
    var name := StagingName(pid, sequence);
    assert name[0] == STAGING_PREFIX[0];
    assert !IsAlphanumeric(name[0]);
  }

  // ----- guards -----

  /**
    The armed guard of a published or of a verified workspace. Only the object that was
    recorded is ever removed.
  */
  class WorkspaceGuard {
    const parent: Parent
    const name: Name
    const ino: nat
    var armed: bool

    constructor (parent: Parent, name: Name, ino: nat)
      ensures this.parent == parent && this.name == name && this.ino == ino && armed
    {
      this.parent, this.name, this.ino, this.armed := parent, name, ino, true;
    }

    method Disarm()
      modifies this`armed
      ensures !armed
    {
      armed := false;
    }

    /** The recorded object is where it was, and can be removed. */
    ghost predicate InPlace()
      reads this, parent
    {
      name in parent.entries && parent.entries[name].ino == ino && Removable(parent.entries[name])
    }

    /** One attempt, if the guard is armed; of an object in place it fails only if a call fails. */
    method Cleanup(k: Kernel) returns (ok: bool)
      modifies k`calls, parent, this`armed
      ensures old(k.calls) <= k.calls
      ensures !old(armed) ==> ok && !armed && parent.entries == old(parent.entries) && parent.attempts == old(parent.attempts)
      ensures old(armed) ==> parent.attempts == old(parent.attempts) + [Attempt(old(k.calls), k.calls)]
      ensures old(armed) && !armed ==>
                && name in old(parent.entries) && old(parent.entries)[name].ino == ino
                && parent.entries == old(parent.entries) - {name}
      ensures armed ==> !ok
      ensures OnlyTouches(old(parent.entries), parent.entries, name)
      ensures name in parent.entries ==>
                name in old(parent.entries) && NotOpened(old(parent.entries)[name], parent.entries[name])
      ensures old(armed) && old(InPlace()) && k.Clean(old(k.calls), k.calls) ==> ok
      ensures old(armed) && old(InPlace()) && armed ==> name in parent.entries ==> InPlace()
      ensures old(armed) && name in old(parent.entries) && name !in parent.entries ==>
                old(k.calls) < k.calls && (ok <==> !k.faults(k.calls - 1))
      ensures old(armed) && old(InPlace()) && old(parent.entries)[name].File? && k.Clean(old(k.calls), old(k.calls) + 3) ==>
                name !in parent.entries && (armed <==> k.faults(old(k.calls) + 3))
    {
      if !armed { return true; }
      ghost var from := k.calls;
      var removed := RemoveOwnedTreeAt(k, parent, name, ino);
      if !removed {
        if old(InPlace()) && name in parent.entries { RemainsRemovable(parent.entries[name], old(parent.entries)[name]); }
        parent.attempts := parent.attempts + [Attempt(from, k.calls)];
        return false;
      }
      armed := false;
      var failed := k.Fails();
      assert failed ==> k.faults(k.calls - 1);
      ok := !failed;
      parent.attempts := parent.attempts + [Attempt(from, k.calls)];
    }

    /** Runs when the guard goes out of scope; a failure is logged, not returned. */
    method Drop(k: Kernel) returns (logged: bool)
      modifies k`calls, parent, this`armed
      ensures old(k.calls) <= k.calls
      ensures !old(armed) ==> !logged && !armed && parent.entries == old(parent.entries) && parent.attempts == old(parent.attempts)
      ensures old(armed) ==> parent.attempts == old(parent.attempts) + [Attempt(old(k.calls), k.calls)]
      ensures old(armed) && !logged ==> parent.entries == old(parent.entries) - {name}
      ensures OnlyTouches(old(parent.entries), parent.entries, name)
      ensures name in parent.entries ==>
                name in old(parent.entries) && NotOpened(old(parent.entries)[name], parent.entries[name])
      ensures old(armed) && old(InPlace()) && k.Clean(old(k.calls), k.calls) ==> !logged
    {
      var ok := Cleanup(k);
      logged := !ok;
    }

    /**
      A cleanup, and another one when the guard goes out of scope with the object still there.
      What is left after that has outlived two attempts in which calls failed.
    */
    method CleanupTwice(k: Kernel) returns (reported: bool)
      requires armed
      modifies k`calls, parent, this`armed
      ensures old(k.calls) <= k.calls && old(parent.attempts) <= parent.attempts
      ensures OnlyTouches(old(parent.entries), parent.entries, name)
      ensures !reported ==> !armed && parent.entries == old(parent.entries) - {name}
      ensures name in parent.entries ==>
                name in old(parent.entries) && NotOpened(old(parent.entries)[name], parent.entries[name])
      ensures old(InPlace()) && reported ==> parent.Hampered(k, |old(parent.attempts)|, old(k.calls))
      ensures old(InPlace()) && name in parent.entries ==> parent.Exhausted(k, |old(parent.attempts)|, old(k.calls))
    {
      ghost var first := |parent.attempts|;
      var cleaned := Cleanup(k);
      var logged := Drop(k);
      assert !cleaned && old(InPlace()) ==> !k.Clean(parent.attempts[first].from, parent.attempts[first].to);
      reported := !cleaned;
    }
  }

  /** The removal is done but for its synchronisation, which fails: the tree is gone and the guard stays armed. */
  method GoneButArmed(file: Node) returns (w: WorkspaceGuard, ok: bool)
    requires file.File?
    ensures fresh(w) && w.armed && !ok && w.name !in w.parent.entries
  {
    var k := new Kernel(c => c == 3, c => false, ino => (n, at) => None, 0);
    var parent := new Parent(map["run" := file]);
    w := new WorkspaceGuard(parent, "run", file.ino);
    ok := w.Cleanup(k);
  }

  datatype SealOutcome = Sealed(workspace: WorkspaceGuard) | NotSealed(leftoverReported: bool)

  datatype StagingStatus = Created(name: Name, ino: nat) | NoStaging | Abandoned

  /** Nothing that was there before has changed; new entries are the run's or staging directories. */
  ghost predicate AddsOnly(before: map<Name, Node>, after: map<Name, Node>, run: Name) {
    && (forall n :: n in before ==> n in after && after[n] == before[n])
    && (forall n :: n in after ==> n in before || n == run || IsStagingName(n))
  }

  class Host {
    const kernel: Kernel
    const pending: Parent
    const quarantine: Parent
    const ready: Parent
    const consumed: Parent
    const sourceOwner: Owner
    const sealer: Owner
    const pid: nat
    const unitName: Name -> Name
    var stagingSequence: nat

    ghost predicate Valid() {
      && pending != quarantine && pending != ready && pending != consumed
      && quarantine != ready && quarantine != consumed && ready != consumed
    }

    constructor (kernel: Kernel, pending: Parent, quarantine: Parent, ready: Parent, consumed: Parent,
                 sourceOwner: Owner, sealer: Owner, pid: nat, unitName: Name -> Name)
      requires pending != quarantine && pending != ready && pending != consumed
      requires quarantine != ready && quarantine != consumed && ready != consumed
      ensures Valid()
    {
      this.kernel, this.pending, this.quarantine, this.ready, this.consumed := kernel, pending, quarantine, ready, consumed;
      this.sourceOwner, this.sealer, this.pid := sourceOwner, sealer, pid;
      this.unitName, this.stagingSequence := unitName, 0;
    }

    function StagedDirectory(ino: nat, mode: nat, entries: seq<Entry>): (d: Node)
      ensures d.Directory? && d.ino == ino
    {
      CopyOf(ino, sealer, mode, entries)
    }

    /** One of the next 128 staging names is unused. */
    ghost predicate StagingAvailable()
      reads this, ready
    {
      exists q | stagingSequence <= q < stagingSequence + STAGING_ATTEMPTS :: StagingName(pid, q) !in ready.entries
    }

    /** Takes a staging directory away again that has just been created. */
    method RemoveStaging(name: Name) returns (removed: bool)
      requires name in ready.entries && Removable(ready.entries[name])
      modifies kernel`calls, ready
      ensures old(kernel.calls) <= kernel.calls && old(ready.attempts) <= ready.attempts
      ensures OnlyTouches(old(ready.entries), ready.entries, name)
      ensures removed ==> ready.entries == old(ready.entries) - {name}
      ensures !removed ==> ready.Hampered(kernel, |old(ready.attempts)|, old(kernel.calls))
    {
      ghost var from := kernel.calls;
      removed := RemoveTreeAt(kernel, ready, name);
      ready.attempts := ready.attempts + [Attempt(from, kernel.calls)];
      assert ready.attempts[|old(ready.attempts)|] == Attempt(from, kernel.calls);
    }

    /** Creates an empty 0700 directory under a name nobody uses, trying 128 names. */
    method CreateStaging() returns (status: StagingStatus)
      modifies kernel, ready, this`stagingSequence
      ensures old(kernel.calls) <= kernel.calls && old(ready.attempts) <= ready.attempts
      ensures match status
              case Created(s, ino) =>
                && s !in old(ready.entries) && (exists p, q :: s == StagingName(p, q))
                && ready.entries == old(ready.entries)[s := StagedDirectory(ino, PRIVATE_ROOT_MODE, [])]
                && kernel.nextInode == ino + 1
              case NoStaging =>
                && ready.entries == old(ready.entries)
                && !(kernel.Faultless() && old(StagingAvailable()))
              case Abandoned =>
                && ready.Hampered(kernel, |old(ready.attempts)|, old(kernel.calls))
                && forall run :: AddsOnly(old(ready.entries), ready.entries, run)
    {
      hide Parent.Hampered;
      for attempt := 0 to STAGING_ATTEMPTS
        invariant ready.entries == old(ready.entries) && ready.attempts == old(ready.attempts)
        invariant old(kernel.calls) <= kernel.calls
        invariant stagingSequence == old(stagingSequence) + attempt
        invariant forall q | old(stagingSequence) <= q < stagingSequence :: StagingName(pid, q) in ready.entries
      {
        var name := StagingName(pid, stagingSequence);
        stagingSequence := stagingSequence + 1;
        if name in ready.entries { continue; }
        var failed := kernel.Fails();
        if failed { return NoStaging; }
        var ino := kernel.Allocate();
        ready.entries := ready.entries[name := StagedDirectory(ino, PRIVATE_ROOT_MODE, [])];
        failed := kernel.Fails();
        if !failed { return Created(name, ino); }
        ghost var since, began := |ready.attempts|, kernel.calls;
        var removed := RemoveStaging(name);
        if removed {
          assert ready.entries == old(ready.entries);
          return NoStaging;
        }
        ready.Earlier(kernel, since, began, since, old(kernel.calls));
        assert IsStagingName(name);
        assert ready.entries - {name} == old(ready.entries);
        return Abandoned;
      }
      return NoStaging;
    }

    ghost predicate Acceptable(source: Node) {
      source.Directory? && SourceAllowed(source, sourceOwner, kernel.reader) && Within(Measure(source), 0, 0, 0, SEALER_LIMITS)
    }

    /** `tree` is a sealed fresh copy of a source that was entirely acceptable. */
    ghost predicate PublishedFrom(source: Node, tree: Node) {
      Acceptable(source) && SealedCopy(source, tree, sealer, kernel.reader, tree.ino)
    }

    /** Copies the source into the staging directory and seals it; the directory stays on failure. */
    method FillStaging(source: Node, staging: Name, ino: nat) returns (ok: bool)
      requires source.Directory? && kernel.nextInode == ino + 1
      modifies kernel, ready`entries
      ensures old(kernel.calls) <= kernel.calls
      ensures OnlyTouches(old(ready.entries), ready.entries, staging)
      ensures staging in ready.entries && ready.entries[staging].ino == ino && Removable(ready.entries[staging])
      ensures ok ==> PublishedFrom(source, ready.entries[staging])
      ensures kernel.Faultless() && Acceptable(source) ==> ok
    {
      hide SourceAllowed, Copied, Remnants, SealedCopy, Remnant, Listable, CopyOf;
      var tally := new Tally(SEALER_LIMITS);
      var copied, target := CopyDirectory(kernel, source, sourceOwner, sealer, 0, tally);
      CopyOfRemnant(source, ino, sealer, PRIVATE_ROOT_MODE, target, kernel.reader, SEALER_LIMITS.entries);
      RemnantIsListable(source, CopyOf(ino, sealer, PRIVATE_ROOT_MODE, target), kernel.reader, SEALER_LIMITS.entries);
      ready.entries := ready.entries[staging := StagedDirectory(ino, PRIVATE_ROOT_MODE, target)];
      if !copied { return false; }
      CopyOfSealed(source, ino, sourceOwner, sealer, target, kernel.reader);
      CopyOfRemnant(source, ino, sealer, SEALED_DIRECTORY_MODE, target, kernel.reader, SEALER_LIMITS.entries);
      RemnantIsListable(source, CopyOf(ino, sealer, SEALED_DIRECTORY_MODE, target), kernel.reader, SEALER_LIMITS.entries);
      var failed := kernel.Fails();
      if failed { return false; }
      ready.entries := ready.entries[staging := StagedDirectory(ino, SEALED_DIRECTORY_MODE, target)];
      failed := kernel.Fails();
      ok := !failed;
    }

    /**
      Everything between the quarantine and the cleanups. The result says what a rollback
      has to remove: a published object, a staging directory, or nothing.
    */
    method StageAndPublish(run: Name, source: Node) returns (p: Progress)
      requires MaySeal(run)
      modifies kernel, ready, this`stagingSequence
      ensures old(kernel.calls) <= kernel.calls && old(ready.attempts) <= ready.attempts
      ensures p.WellFormed(run, old(ready.entries), ready.entries)
      ensures p.abandoned ==> ready.Hampered(kernel, |old(ready.attempts)|, old(kernel.calls))
      ensures p.ok ==> p.published.Some? && PublishedFrom(source, ready.entries[run])
      ensures kernel.Faultless() && Acceptable(source) && run !in old(ready.entries) && old(StagingAvailable()) ==> p.ok
    {
      var nothing := Progress(false, None, None, false);
      var failed := kernel.Fails();
      if failed || !source.Directory? || !SourceDirectoryValid(source, sourceOwner) { return nothing; }
      var status := CreateStaging();
      if status == NoStaging { return nothing; }
      if status == Abandoned { return nothing.(abandoned := true); }
      var staging, ino := status.name, status.ino;
      assert IsStagingName(staging) && staging != run by {
        var a, b :| staging == StagingName(a, b);
        StagingIsNoRun(a, b, run);
      }
      p := nothing.(staging := Some(staging));
      failed := kernel.Fails();
      if failed { return p; }
      var filled := FillStaging(source, staging, ino);
      if !filled { return p; }
      failed := kernel.Fails();
      assert ready.entries - {staging} == old(ready.entries);
      if failed || run in ready.entries { return p; }
      ready.entries := (ready.entries - {staging})[run := ready.entries[staging]];
      assert ready.entries == old(ready.entries)[run := ready.entries[run]];
      p := p.(published := Some(ino));
      failed := kernel.Fails();
      p := p.(ok := !failed);
    }

    /** Removes what the progress says has to go; with that in place it fails only if a call fails. */
    method CleanupTarget(run: Name, p: Progress) returns (ok: bool)
      modifies kernel`calls, ready
      ensures old(kernel.calls) <= kernel.calls && old(ready.attempts) <= ready.attempts
      ensures p.published.Some? ==> OnlyTouches(old(ready.entries), ready.entries, run)
      ensures p.published.Some? && ok ==> ready.entries == old(ready.entries) - {run}
      ensures p.published == None && p.staging.Some? ==> OnlyTouches(old(ready.entries), ready.entries, p.staging.value)
      ensures p.published == None && p.staging.Some? && ok ==> ready.entries == old(ready.entries) - {p.staging.value}
      ensures p.published == None && p.staging == None ==> ok && ready.entries == old(ready.entries)
      ensures !ok && p.Clearable(run, old(ready.entries)) ==>
                ready.Hampered(kernel, |old(ready.attempts)|, old(kernel.calls))
    {
      ok := true;
      ghost var from, first := kernel.calls, |ready.attempts|;
      if p.published.Some? {
        ok := RemoveOwnedTreeAt(kernel, ready, run, p.published.value);
      } else if p.staging.Some? {
        ok := RemoveTreeAt(kernel, ready, p.staging.value);
      } else {
        return;
      }
      if ok {
        var failed := kernel.Fails();
        assert failed ==> kernel.faults(kernel.calls - 1);
        ok := !failed;
      }
      ready.attempts := ready.attempts + [Attempt(from, kernel.calls)];
      assert ready.attempts[first] == Attempt(from, kernel.calls);
    }

    method CleanupSource(run: Name, identity: nat) returns (ok: bool)
      modifies kernel`calls, quarantine
      ensures old(kernel.calls) <= kernel.calls && old(quarantine.attempts) <= quarantine.attempts
      ensures OnlyTouches(old(quarantine.entries), quarantine.entries, run)
      ensures ok ==> quarantine.entries == old(quarantine.entries) - {run}
      ensures && !ok && run in old(quarantine.entries) && old(quarantine.entries)[run].ino == identity
              && Removable(old(quarantine.entries)[run])
              ==> quarantine.Hampered(kernel, |old(quarantine.attempts)|, old(kernel.calls))
    {
      ghost var from, first := kernel.calls, |quarantine.attempts|;
      ok := RemoveOwnedTreeAt(kernel, quarantine, run, identity);
      if ok {
        var failed := kernel.Fails();
        assert failed ==> kernel.faults(kernel.calls - 1);
        ok := !failed;
      }
      quarantine.attempts := quarantine.attempts + [Attempt(from, kernel.calls)];
      assert quarantine.attempts[first] == Attempt(from, kernel.calls);
    }

    /** What the quarantine will find is still the recorded object, and can be removed. */
    ghost predicate Rollbackable(run: Name, swapped: Option<Node>)
      reads pending
    {
      run in pending.entries ==>
        var offered := Offered(pending.entries, run, swapped)[run];
        offered.ino == pending.entries[run].ino && Removable(offered)
    }

    /**
      Seals the pending workspace of a run. `swapped` is what the owner of the pending
      tree puts in its place between the first look at it and the quarantine.
    */
    method Seal(run: Name, swapped: Option<Node>) returns (outcome: SealOutcome)
      requires Valid()
      modifies kernel, pending, quarantine, ready, this`stagingSequence
      ensures old(kernel.calls) <= kernel.calls
      ensures old(ready.attempts) <= ready.attempts && old(quarantine.attempts) <= quarantine.attempts
      ensures outcome == NotSealed(true) && old(Rollbackable(run, swapped)) ==>
                || ready.Hampered(kernel, |old(ready.attempts)|, old(kernel.calls))
                || quarantine.Hampered(kernel, |old(quarantine.attempts)|, old(kernel.calls))
      ensures outcome.NotSealed? && ready.entries != old(ready.entries) ==>
                ready.Hampered(kernel, |old(ready.attempts)|, old(kernel.calls))
      ensures outcome.NotSealed? && quarantine.entries != old(quarantine.entries) && old(Rollbackable(run, swapped)) ==>
                quarantine.Hampered(kernel, |old(quarantine.attempts)|, old(kernel.calls))
      ensures outcome.NotSealed? && !outcome.leftoverReported ==>
                && ready.entries == old(ready.entries) && quarantine.entries == old(quarantine.entries)
                && (pending.entries == old(pending.entries)
                    || pending.entries == Offered(old(pending.entries), run, swapped)
                    || pending.entries == old(pending.entries) - {run})
      ensures outcome.NotSealed? ==>
                && AddsOnly(old(ready.entries), ready.entries, run)
                && AddsOnly(old(quarantine.entries), quarantine.entries, run)
      ensures outcome.Sealed? ==>
                var w := outcome.workspace;
                && fresh(w) && w.armed && w.parent == ready && w.name == run
                && run !in old(ready.entries) && run in ready.entries && w.ino == ready.entries[run].ino
                && ready.entries == old(ready.entries)[run := ready.entries[run]]
                && quarantine.entries == old(quarantine.entries)
                && pending.entries == old(pending.entries) - {run}
                && run in old(pending.entries)
                && PublishedFrom(Offered(old(pending.entries), run, swapped)[run], ready.entries[run])
      ensures pending.entries - {run} == old(pending.entries) - {run}
      ensures && kernel.Faultless() && MaySeal(run) && swapped == None
              && run in old(pending.entries) && Acceptable(old(pending.entries)[run])
              && run !in old(quarantine.entries) && run !in old(ready.entries) && old(StagingAvailable())
              ==> outcome.Sealed?
    {
      var failed := kernel.Fails();
      if failed || !MaySeal(run) || run !in pending.entries { return NotSealed(false); }
      var identity := pending.entries[run].ino;
      pending.entries := Offered(pending.entries, run, swapped);
      failed := kernel.Fails();
      if failed || run in quarantine.entries { return NotSealed(false); }
      var source := pending.entries[run];
      pending.entries, quarantine.entries := pending.entries - {run}, quarantine.entries[run := source];

      assert quarantine.entries - {run} == old(quarantine.entries);
      outcome := SealQuarantined(run, source, identity);
      assert quarantine.entries - {run} == old(quarantine.entries);
      TouchesAdds(old(quarantine.entries), quarantine.entries, run);
    }

    /** Copies and publishes the quarantined source, then removes it; rolls back on any failure. */
    method SealQuarantined(run: Name, source: Node, identity: nat) returns (outcome: SealOutcome)
      requires Valid() && MaySeal(run)
      requires run in quarantine.entries && quarantine.entries[run] == source
      modifies kernel, quarantine, ready, this`stagingSequence
      ensures old(kernel.calls) <= kernel.calls
      ensures old(ready.attempts) <= ready.attempts && old(quarantine.attempts) <= quarantine.attempts
      ensures outcome == NotSealed(true) && source.ino == identity && Removable(source) ==>
                || ready.Hampered(kernel, |old(ready.attempts)|, old(kernel.calls))
                || quarantine.Hampered(kernel, |old(quarantine.attempts)|, old(kernel.calls))
      ensures outcome.NotSealed? && ready.entries != old(ready.entries) ==>
                ready.Hampered(kernel, |old(ready.attempts)|, old(kernel.calls))
      ensures && outcome.NotSealed? && quarantine.entries != old(quarantine.entries) - {run}
              && source.ino == identity && Removable(source)
              ==> quarantine.Hampered(kernel, |old(quarantine.attempts)|, old(kernel.calls))
      ensures OnlyTouches(old(quarantine.entries), quarantine.entries, run)
      ensures outcome == NotSealed(false) ==>
                ready.entries == old(ready.entries) && quarantine.entries == old(quarantine.entries) - {run}
      ensures outcome.NotSealed? ==> AddsOnly(old(ready.entries), ready.entries, run)
      ensures outcome.Sealed? ==>
                var w := outcome.workspace;
                && fresh(w) && w.armed && w.parent == ready && w.name == run
                && run !in old(ready.entries) && run in ready.entries && w.ino == ready.entries[run].ino
                && ready.entries == old(ready.entries)[run := ready.entries[run]]
                && quarantine.entries == old(quarantine.entries) - {run}
                && PublishedFrom(source, ready.entries[run])
      ensures && kernel.Faultless() && Acceptable(source) && source.ino == identity
              && run !in old(ready.entries) && old(StagingAvailable())
              ==> outcome.Sealed?
    {
      if Acceptable(source) { AcceptedIsRemovable(source, sourceOwner, kernel.reader); }
      var p := Progress(false, None, None, false);
      if source.ino == identity { p := StageAndPublish(run, source); }
      ghost var staged := ready.entries;
      if p.ok {
        var cleaned := CleanupSource(run, identity);
        if cleaned {
          var w := new WorkspaceGuard(ready, run, p.published.value);
          return Sealed(w);
        }
        var undone := CleanupTarget(run, p);
        RolledBack(p, run, old(ready.entries), staged, ready.entries, undone);
        return NotSealed(true);
      }
      var rolledBack := CleanupTarget(run, p);
      RolledBack(p, run, old(ready.entries), staged, ready.entries, rolledBack);
      var cleaned := CleanupSource(run, identity);
      return NotSealed(!rolledBack || !cleaned || p.abandoned);
    }

    // ----- consumption -----

    /** The checks on a published workspace before it is taken. */
    method InspectPublished(run: Name, ino: nat) returns (ok: bool)
      requires run in ready.entries
      modifies kernel`calls
      ensures old(kernel.calls) <= kernel.calls
      ensures ok ==> ConsumerAccepts(ready.entries[run], sealer, Private)
      ensures && kernel.Faultless() && ConsumerAccepts(ready.entries[run], sealer, Private)
              && NoControlFiles(ready.entries[run]) && ready.entries[run].ino == ino
              ==> ok
    {
      var tree := ready.entries[run];
      var failed := kernel.Fails();
      if failed || !tree.Directory? || tree.meta.uid != sealer.uid || tree.meta.gid != sealer.gid
         || tree.meta.mode != SEALED_DIRECTORY_MODE {
        return false;
      }
      var tally := new Tally(CONSUMER_LIMITS);
      var valid := ValidateDirectory(kernel, tree, sealer, Private, 0, tally);
      if !valid { return false; }
      for i := 0 to |tree.entries| {
        if ForbiddenName(tree.entries[i].name) {
          assert !NoControlFiles(tree);
          return false;
        }
      }
      failed := kernel.Fails();
      ok := !failed && tree.ino == ino;
    }

    /** Opens the consumed tree to the group and validates the result. */
    method GrantConsumed(unit: Name) returns (ok: bool)
      requires unit in consumed.entries && consumed.entries[unit].Directory?
      modifies kernel`calls, consumed`entries
      ensures old(kernel.calls) <= kernel.calls
      ensures OnlyTouches(old(consumed.entries), consumed.entries, unit) && unit in consumed.entries
      ensures consumed.entries[unit].ino == old(consumed.entries)[unit].ino
      ensures Removable(old(consumed.entries)[unit]) ==> Removable(consumed.entries[unit])
      ensures ModesOf(old(consumed.entries)[unit], sealer, Private) ==> NotExposed(consumed.entries[unit], sealer)
      ensures ok ==>
                && Granted(old(consumed.entries)[unit], consumed.entries[unit], sealer)
                && ConsumerAccepts(consumed.entries[unit], sealer, GroupReadable)
      ensures kernel.Faultless() && ConsumerAccepts(old(consumed.entries)[unit], sealer, Private) ==> ok
    {
      hide NotExposed, Listable, GrantSafe, GroupReaches;
      var tree := consumed.entries[unit];
      if ModesOf(tree, sealer, Private) { PrivateIsNotExposed(tree, sealer); }
      var failed := kernel.Fails();
      if failed { return false; }
      var grantTally := new Tally(CONSUMER_LIMITS);
      var granted, after := GrantDirectory(kernel, tree, sealer, 0, grantTally);
      consumed.entries := consumed.entries[unit := after];
      if Removable(tree) { StepIsRemovable(tree, after, sealer); }
      if ModesOf(tree, sealer, Private) { StepIsNotExposed(tree, after, sealer); }
      if !granted { return false; }
      if ConsumerAccepts(tree, sealer, Private) { GrantedIsAccepted(tree, after, sealer); }
      var tally := new Tally(CONSUMER_LIMITS);
      var valid := ValidateDirectory(kernel, after, sealer, GroupReadable, 0, tally);
      if !valid { return false; }
      failed := kernel.Fails();
      ok := !failed;
    }

    /**
      Takes a published workspace. The published guard is disarmed exactly when the
      object has moved under the consumed guard; before that, leaving the method drops
      the published guard, and after it a failure cleans the consumed object.
    */
    method Consume(run: Name, published: WorkspaceGuard) returns (outcome: ConsumeOutcome)
      requires Valid() && run in ready.entries && ready.entries[run].ino == published.ino
      requires published.armed && published.parent == ready && published.name == run
      modifies kernel`calls, ready, consumed, published`armed
      ensures old(kernel.calls) <= kernel.calls && OnlyTouches(old(ready.entries), ready.entries, run)
      ensures outcome.Verified? ==>
                var w, unit := outcome.workspace, unitName(run);
                && fresh(w) && w.armed && !published.armed && w.parent == consumed && w.name == unit
                && w.ino == published.ino
                && ready.entries == old(ready.entries) - {run}
                && unit !in old(consumed.entries) && unit in consumed.entries
                && consumed.entries == old(consumed.entries)[unit := consumed.entries[unit]]
                && consumed.entries[unit].ino == w.ino
                && Granted(old(ready.entries)[run], consumed.entries[unit], sealer)
                && ConsumerAccepts(consumed.entries[unit], sealer, GroupReadable)
      ensures outcome == NotVerified(false) ==>
                ready.entries == old(ready.entries) - {run} && consumed.entries == old(consumed.entries)
      ensures old(ready.attempts) <= ready.attempts && old(consumed.attempts) <= consumed.attempts
      ensures outcome == NotVerified(true) && Removable(old(ready.entries)[run]) ==>
                || ready.Hampered(kernel, |old(ready.attempts)|, old(kernel.calls))
                || consumed.Hampered(kernel, |old(consumed.attempts)|, old(kernel.calls))
      ensures outcome.NotVerified? && run in ready.entries && Removable(old(ready.entries)[run]) ==>
                ready.Hampered(kernel, |old(ready.attempts)|, old(kernel.calls))
      ensures outcome.NotVerified? && consumed.entries != old(consumed.entries) && Removable(old(ready.entries)[run]) ==>
                consumed.Exhausted(kernel, |old(consumed.attempts)|, old(kernel.calls))
      ensures forall n | n in consumed.entries && n !in old(consumed.entries) :: NotExposed(consumed.entries[n], sealer)
      ensures AddsAtMost(old(consumed.entries), consumed.entries, unitName(run))
      ensures && kernel.Faultless() && ConsumerAccepts(old(ready.entries)[run], sealer, Private)
              && NoControlFiles(old(ready.entries)[run]) && unitName(run) !in old(consumed.entries)
              ==> outcome.Verified?
    {
      var unit := unitName(run);
      var sound := InspectPublished(run, published.ino);
      var failed := kernel.Fails();
      if !sound || failed || unit in consumed.entries {
        ghost var first := |ready.attempts|;
        var logged := published.Drop(kernel);
        ghost var attempt := ready.attempts[first];
        assert kernel.Clean(attempt.from, attempt.to) || Faulty(kernel, attempt, old(kernel.calls));
        return NotVerified(logged);
      }
      var tree := ready.entries[run];
      ready.entries, consumed.entries := ready.entries - {run}, consumed.entries[unit := tree];
      var w := new WorkspaceGuard(consumed, unit, published.ino);
      published.Disarm();
      assert consumed.entries - {unit} == old(consumed.entries);
      var kept, reported := FinishConsumption(w, unit);
      assert consumed.entries - {unit} == old(consumed.entries);
      TouchesAddsOne(old(consumed.entries), consumed.entries, unit);
      outcome := if kept then Verified(w) else NotVerified(reported);
    }

    /**
      Grants and re-validates the consumed object. On failure the guard is cleaned and
      then dropped, so a first cleanup that failed is tried once more.
    */
    method FinishConsumption(w: WorkspaceGuard, unit: Name) returns (kept: bool, reported: bool)
      requires w.armed && w.parent == consumed && w.name == unit
      requires unit in consumed.entries && consumed.entries[unit].ino == w.ino && consumed.entries[unit].Directory?
      modifies kernel`calls, consumed, w`armed
      ensures old(kernel.calls) <= kernel.calls && old(consumed.attempts) <= consumed.attempts
      ensures OnlyTouches(old(consumed.entries), consumed.entries, unit)
      ensures !kept && reported && Removable(old(consumed.entries)[unit]) ==>
                consumed.Hampered(kernel, |old(consumed.attempts)|, old(kernel.calls))
      ensures !kept && unit in consumed.entries && Removable(old(consumed.entries)[unit]) ==>
                consumed.Exhausted(kernel, |old(consumed.attempts)|, old(kernel.calls))
      ensures ModesOf(old(consumed.entries)[unit], sealer, Private) && unit in consumed.entries ==>
                NotExposed(consumed.entries[unit], sealer)
      ensures kept ==>
                && w.armed && unit in consumed.entries && consumed.entries[unit].ino == w.ino
                && Granted(old(consumed.entries)[unit], consumed.entries[unit], sealer)
                && ConsumerAccepts(consumed.entries[unit], sealer, GroupReadable)
      ensures !kept && !reported ==> !w.armed && consumed.entries == old(consumed.entries) - {unit}
      ensures kernel.Faultless() && ConsumerAccepts(old(consumed.entries)[unit], sealer, Private) ==> kept
    {
      kept := GrantConsumed(unit);
      if kept { return true, false; }
      reported := w.CleanupTwice(kernel);
    }

    /** One execution from the pending tree to the cleaned workspace; `run` stands for the transient unit. */
    method Execute(run: Name, swapped: Option<Node>, execution: Execution) returns (outcome: ExecutionOutcome)
      requires Valid()
      modifies kernel, pending, quarantine, ready, consumed, this`stagingSequence
      ensures outcome == Failed(true) && old(Rollbackable(run, swapped)) ==>
                || ready.Hampered(kernel, |old(ready.attempts)|, old(kernel.calls))
                || quarantine.Hampered(kernel, |old(quarantine.attempts)|, old(kernel.calls))
                || consumed.Hampered(kernel, |old(consumed.attempts)|, old(kernel.calls))
      ensures ready.entries != old(ready.entries) ==> ready.Hampered(kernel, |old(ready.attempts)|, old(kernel.calls))
      ensures quarantine.entries != old(quarantine.entries) && old(Rollbackable(run, swapped)) ==>
                quarantine.Hampered(kernel, |old(quarantine.attempts)|, old(kernel.calls))
      ensures consumed.entries != old(consumed.entries) ==>
                consumed.Hampered(kernel, |old(consumed.attempts)|, old(kernel.calls))
      ensures outcome != Failed(true) ==>
                && ready.entries == old(ready.entries) && quarantine.entries == old(quarantine.entries)
                && consumed.entries == old(consumed.entries)
      ensures outcome.Completed? || outcome.Cancelled? ==> pending.entries == old(pending.entries) - {run}
      ensures pending.entries - {run} == old(pending.entries) - {run}
      ensures && AddsOnly(old(ready.entries), ready.entries, run)
              && AddsOnly(old(quarantine.entries), quarantine.entries, run)
              && AddsAtMost(old(consumed.entries), consumed.entries, unitName(run))
      ensures && kernel.Faultless() && MaySeal(run) && swapped == None
              && run in old(pending.entries) && Acceptable(old(pending.entries)[run])
              && run !in old(quarantine.entries) && run !in old(ready.entries) && old(StagingAvailable())
              && unitName(run) !in old(consumed.entries)
              ==> outcome == FinaliseExecution(execution, true)
    {
      hide Listable, SourceAllowed, Mirror, HasModes, OwnerOnly, Numbered, SameContent, Measure, NotExposed;
      var sealing := Seal(run, swapped);
      if sealing.NotSealed? { return Failed(sealing.leftoverReported); }
      ghost var source := Offered(old(pending.entries), run, swapped)[run];
      PublishedIsAccepted(source, ready.entries[run], sealer, kernel.reader, ready.entries[run].ino);
      PublishedHasNoControlFiles(source, ready.entries[run], sourceOwner, kernel.reader);
      PublishedIsRemovable(source, ready.entries[run], sourceOwner, kernel.reader);
      ghost var published := ready.entries;
      ghost var since, began := |consumed.attempts|, kernel.calls;
      var consumption := Consume(run, sealing.workspace);
      if consumed.Hampered(kernel, since, began) || consumed.Exhausted(kernel, since, began) {
        consumed.Earlier(kernel, since, began, since, old(kernel.calls));
      }
      assert ready.entries - {run} == old(ready.entries);
      TouchesAdds(old(ready.entries), ready.entries, run);
      if consumption.NotVerified? { return Failed(consumption.leftoverReported); }
      var w := consumption.workspace;
      GrantedIsRemovable(published[run], consumed.entries[unitName(run)], sealer);
      assert consumed.entries - {unitName(run)} == old(consumed.entries);
      ghost var later, start := |consumed.attempts|, kernel.calls;
      outcome := RunPrepared(w, execution);
      if consumed.Hampered(kernel, later, start) { consumed.Earlier(kernel, later, start, since, old(kernel.calls)); }
      TouchesAddsOne(old(consumed.entries), consumed.entries, unitName(run));
    }

    /** Builds the plan and runs it; without a plan only the guard goes out of scope. */
    method RunPrepared(w: WorkspaceGuard, execution: Execution) returns (outcome: ExecutionOutcome)
      requires w.armed && w.parent == consumed && w.name in consumed.entries
      requires consumed.entries[w.name].ino == w.ino
      modifies kernel`calls, consumed, w`armed
      ensures old(kernel.calls) <= kernel.calls && old(consumed.attempts) <= consumed.attempts
      ensures OnlyTouches(old(consumed.entries), consumed.entries, w.name)
      ensures (outcome == Failed(true) || w.name in consumed.entries) && Removable(old(consumed.entries)[w.name]) ==>
                consumed.Hampered(kernel, |old(consumed.attempts)|, old(kernel.calls))
      ensures outcome != Failed(true) ==> consumed.entries == old(consumed.entries) - {w.name}
      ensures kernel.Faultless() && Removable(old(consumed.entries)[w.name]) ==> outcome == FinaliseExecution(execution, true)
    {
      var failed := kernel.Fails();
      ghost var first := |consumed.attempts|;
      if failed {
        var logged := w.Drop(kernel);
        ghost var attempt := consumed.attempts[first];
        assert kernel.Clean(attempt.from, attempt.to) || Faulty(kernel, attempt, old(kernel.calls));
        return Failed(logged);
      }
      ghost var began := kernel.calls;
      outcome := RunAndClean(w, execution);
      if consumed.Hampered(kernel, first, began) || consumed.Exhausted(kernel, first, began) {
        consumed.Earlier(kernel, first, began, first, old(kernel.calls));
      }
    }

    /** Runs the transient unit and cleans the consumed workspace, whatever became of the unit. */
    method RunAndClean(w: WorkspaceGuard, execution: Execution) returns (outcome: ExecutionOutcome)
      requires w.armed && w.parent == consumed && w.name in consumed.entries
      requires consumed.entries[w.name].ino == w.ino
      modifies kernel`calls, consumed, w`armed
      ensures old(kernel.calls) <= kernel.calls && old(consumed.attempts) <= consumed.attempts
      ensures OnlyTouches(old(consumed.entries), consumed.entries, w.name)
      ensures outcome == Failed(true) && Removable(old(consumed.entries)[w.name]) ==>
                consumed.Hampered(kernel, |old(consumed.attempts)|, old(kernel.calls))
      ensures w.name in consumed.entries && Removable(old(consumed.entries)[w.name]) ==>
                consumed.Exhausted(kernel, |old(consumed.attempts)|, old(kernel.calls))
      ensures outcome != Failed(true) ==> consumed.entries == old(consumed.entries) - {w.name}
      ensures kernel.Faultless() && Removable(old(consumed.entries)[w.name]) ==> outcome == FinaliseExecution(execution, true)
    {
      var reported := w.CleanupTwice(kernel);
      outcome := FinaliseExecution(execution, !reported);
    }
  }

  /** How the transient unit ended. */
  datatype Execution = UnitFinished | UnitCancelled | UnitBroken

  datatype ExecutionOutcome = Completed | Cancelled | Failed(leftoverReported: bool)

  /** A failed cleanup overrides every other outcome, cancellation included. */
  function FinaliseExecution(execution: Execution, cleaned: bool): ExecutionOutcome {
    if !cleaned then Failed(true)
    else match execution
         case UnitFinished => Completed
         case UnitCancelled => Cancelled
         case UnitBroken => Failed(false)
  }

  ghost predicate AddsAtMost(before: map<Name, Node>, after: map<Name, Node>, name: Name) {
    && (forall n :: n in before ==> n in after && after[n] == before[n])
    && (forall n :: n in after ==> n in before || n == name)
  }

  lemma TouchesAddsOne(before: map<Name, Node>, after: map<Name, Node>, name: Name)
    requires after - {name} == before
    ensures AddsAtMost(before, after, name)
  {
    assert forall n :: n in before ==> n in after - {name};
    assert forall n :: n in after && n != name ==> n in after - {name};
  }

  lemma PublishedHasNoControlFiles(source: Node, copy: Node, owner: Owner, reader: Reader)
    requires SourceAllowed(source, owner, reader) && Mirror(source, copy, reader)
    ensures NoControlFiles(copy)
  {
  }

  lemma PublishedIsRemovable(source: Node, copy: Node, owner: Owner, reader: Reader)
    requires SourceAllowed(source, owner, reader) && Measure(source).entries <= WORKSPACE_ENTRY_MAX
    requires Mirror(source, copy, reader)
    ensures Removable(copy)
  {
    AcceptedIsRemovable(source, owner, reader);
    MirrorShape(source, copy, reader);
    SameShapeListable(source, copy, WORKSPACE_ENTRY_MAX);
  }

  lemma GrantedIsRemovable(before: Node, after: Node, owner: Owner)
    requires Granted(before, after, owner) && Removable(before)
    ensures Removable(after)
  {
    SameContentShape(before, after);
    SameShapeListable(before, after, WORKSPACE_ENTRY_MAX);
  }

  /** If the group reaches anything in the tree, the whole tree has been granted. */
  ghost predicate NotExposed(n: Node, owner: Owner) {
    GroupReaches(n) ==> ModesOf(n, owner, GroupReadable)
  }

  lemma PrivateIsNotExposed(n: Node, owner: Owner)
    requires n.Directory? && ModesOf(n, owner, Private)
    ensures NotExposed(n, owner)
  {
  }

  lemma StepIsNotExposed(before: Node, after: Node, owner: Owner)
    requires before.Directory? && ModesOf(before, owner, Private) && Step(before, after, owner)
    ensures NotExposed(after, owner)
  {
    PrivateIsGrantSafe(before, owner);
    if GroupReaches(after) { ReachableOnlyWhenGranted(after, owner); }
  }

  datatype ConsumeOutcome = Verified(workspace: WorkspaceGuard) | NotVerified(leftoverReported: bool)

  ghost predicate NoControlFiles(n: Node) {
    n.Directory? ==> forall i | 0 <= i < |n.entries| :: !ForbiddenName(n.entries[i].name)
  }

  lemma TouchesAdds(before: map<Name, Node>, after: map<Name, Node>, run: Name)
    requires after - {run} == before
    ensures AddsOnly(before, after, run)
  {
    assert forall n :: n in before ==> n in after - {run};
    assert forall n :: n in after && n != run ==> n in after - {run};
  }

  /** What the removal of the target leaves under `ready`. */
  lemma RolledBack(p: Progress, run: Name, before: map<Name, Node>, staged: map<Name, Node>, after: map<Name, Node>, ok: bool)
    requires p.WellFormed(run, before, staged)
    requires p.published.Some? ==> OnlyTouches(staged, after, run) && (ok ==> after == staged - {run})
    requires p.published == None && p.staging.Some? ==>
               OnlyTouches(staged, after, p.staging.value) && (ok ==> after == staged - {p.staging.value})
    requires p.published == None && p.staging == None ==> after == staged
    ensures AddsOnly(before, after, run)
    ensures ok && !p.abandoned ==> after == before
  {
    if p.published.Some? {
      assert before - {run} == before;
      assert after - {run} == before;
    } else if p.staging.Some? {
      assert after - {p.staging.value} == before - {p.staging.value} == before;
    }
  }

  /** The pending directory as the quarantine finds it. */
  function Offered(pending: map<Name, Node>, run: Name, swapped: Option<Node>): map<Name, Node> {
    if run in pending && swapped.Some? then pending[run := swapped.value] else pending
  }

  datatype Progress = Progress(ok: bool, staging: Option<Name>, published: Option<nat>, abandoned: bool) {
    /** What has to go is in place, and can be removed. */
    ghost predicate Clearable(run: Name, ready: map<Name, Node>) {
      && (published.Some? ==> run in ready && ready[run].ino == published.value && Removable(ready[run]))
      && (published == None && staging.Some? ==> staging.value in ready && Removable(ready[staging.value]))
    }

    ghost predicate WellFormed(run: Name, before: map<Name, Node>, after: map<Name, Node>) {
      && (abandoned ==> staging == None && published == None && AddsOnly(before, after, run))
      && (published.Some? ==>
            && run !in before && run in after && after[run].ino == published.value && Removable(after[run])
            && after == before[run := after[run]])
      && (published == None && staging.Some? ==>
            && IsStagingName(staging.value) && staging.value !in before && staging.value in after
            && Removable(after[staging.value])
            && OnlyTouches(before, after, staging.value))
      && (published == None && staging == None && !abandoned ==> after == before)
    }
  }
}
