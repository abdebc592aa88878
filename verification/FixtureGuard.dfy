/**
  The guard over canary fixtures while they are being set up: it remembers every object it
  was told about and takes them away again, last one first, if the set-up does not finish.
*/
module FixtureGuard {
  import opened Common

  /** A path by its components; a child has one component more. */
  type Path = seq<string>

  datatype Kind = File | Directory

  datatype Object = Object(device: nat, inode: nat, kind: Kind, symlink: bool)

  /** An attempt to take the object at a path away, by the numbers of its calls. */
  datatype Rollback = Rollback(path: Path, from: nat, to: nat)

  datatype Entry = Entry(path: Path, device: nat, inode: nat, kind: Kind)

  predicate ChildOf(q: Path, p: Path) {
    |q| == |p| + 1 && q[..|p|] == p
  }

  predicate Matches(o: Object, e: Entry) {
    !o.symlink && o.kind == e.kind && o.device == e.device && o.inode == e.inode
  }

  predicate IsDirectory(objects: map<Path, Object>, p: Path) {
    p in objects && objects[p].kind.Directory? && !objects[p].symlink
  }

  /** Nothing is at the path yet, and there is a directory for it. */
  predicate Free(objects: map<Path, Object>, p: Path) {
    p !in objects && |p| > 0 && (|p| > 1 ==> IsDirectory(objects, p[..|p| - 1]))
  }

  /** Every object is in a directory. */
  ghost predicate Rooted(objects: map<Path, Object>) {
    forall p, q | q in objects && ChildOf(q, p) && |p| > 0 :: IsDirectory(objects, p)
  }

  /**
    The directories the fixtures live in. Every call may fail; every attempt to take an
    object away is remembered by the numbers of its calls.
  */
  class Host {
    var objects: map<Path, Object>
    var nextInode: nat
    const faults: nat -> bool
    var calls: nat
    ghost var rollbacks: seq<Rollback>

    constructor (objects: map<Path, Object>, nextInode: nat, faults: nat -> bool)
      ensures this.objects == objects && this.nextInode == nextInode && this.faults == faults
      ensures calls == 0 && rollbacks == []
    {
      this.objects, this.nextInode, this.faults := objects, nextInode, faults;
      calls, rollbacks := 0, [];
    }

    ghost predicate Clean(lo: nat, hi: nat) {
      forall i | lo <= i < hi :: !faults(i)
    }

    /** In one of these attempts a call failed. */
    ghost predicate Hampered(tries: seq<Rollback>) {
      exists k | 0 <= k < |tries| :: !Clean(tries[k].from, tries[k].to)
    }

    /** A call failed in one that was for this path. */
    ghost predicate Stuck(tries: seq<Rollback>, p: Path) {
      exists k | 0 <= k < |tries| :: tries[k].path == p && !Clean(tries[k].from, tries[k].to)
    }

    lemma HamperedSnoc(tries: seq<Rollback>, t: Rollback)
      ensures Hampered(tries + [t]) <==> Hampered(tries) || !Clean(t.from, t.to)
    {
      var more := tries + [t];
      assert more[|tries|] == t && forall k | 0 <= k < |tries| :: more[k] == tries[k];
    }

    lemma HamperedConcat(tries: seq<Rollback>, more: seq<Rollback>)
      ensures Hampered(tries + more) <==> Hampered(tries) || Hampered(more)
    {
      var all := tries + more;
      assert forall k | 0 <= k < |tries| :: all[k] == tries[k];
      assert forall k | 0 <= k < |more| :: all[|tries| + k] == more[k];
    }

    lemma StuckConcat(tries: seq<Rollback>, more: seq<Rollback>, p: Path)
      requires Stuck(tries, p) || Stuck(more, p)
      ensures Stuck(tries + more, p)
    {
      var all := tries + more;
      assert forall k | 0 <= k < |tries| :: all[k] == tries[k];
      assert forall k | 0 <= k < |more| :: all[|tries| + k] == more[k];
    }

    lemma StuckIsHampered(tries: seq<Rollback>, p: Path)
      requires Stuck(tries, p)
      ensures Hampered(tries)
    {
    }

    method Call() returns (failed: bool)
      modifies this`calls
      ensures calls == old(calls) + 1 && failed == faults(old(calls))
    {
      failed := faults(calls);
      calls := calls + 1;
    }

    ghost predicate HasChildren(p: Path)
      reads this
    {
      exists q | q in objects :: ChildOf(q, p)
    }

    method Create(p: Path, kind: Kind) returns (ok: bool)
      modifies this`objects, this`nextInode, this`calls
      ensures calls == old(calls) + 1
      ensures ok <==> !faults(old(calls)) && Free(old(objects), p)
      ensures objects == if ok then old(objects)[p := Object(0, old(nextInode), kind, false)] else old(objects)
    {
      var failed := Call();
      ok := !failed && Free(objects, p);
      if ok { objects := objects[p := Object(0, nextInode, kind, false)]; }
      nextInode := nextInode + 1;
    }

    /** Removes a file, or a directory that has nothing in it. */
    method Remove(p: Path, kind: Kind) returns (ok: bool)
      modifies this`objects, this`calls
      ensures calls == old(calls) + 1
      ensures objects == if ok then old(objects) - {p} else old(objects)
      ensures ok <==> !faults(old(calls)) && p in old(objects) && (kind.File? || !old(HasChildren(p)))
    {
      var failed := Call();
      var children := exists q | q in objects :: ChildOf(q, p);
      ok := !failed && p in objects && (kind.File? || !children);
      if ok { objects := objects - {p}; }
    }

    /**
      Creates a fixture and fills it; what cannot be filled is taken away again at once,
      and the error says so if that fails.
    */
    method CreateFixture(p: Path, kind: Kind) returns (ok: bool, reported: bool)
      requires Rooted(objects)
      modifies this
      ensures Rooted(objects) && old(calls) < calls && old(rollbacks) <= rollbacks
      ensures ok <==> Free(old(objects), p) && Clean(old(calls), old(calls) + 2)
      ensures ok <==> Free(old(objects), p) && Clean(old(calls), calls)
      ensures ok || reported ==> Free(old(objects), p)
      ensures Clean(old(calls), calls) ==> rollbacks == old(rollbacks) && !reported
      ensures ok ==> calls == old(calls) + 2 && rollbacks == old(rollbacks)
      ensures objects == if ok || reported then old(objects)[p := Object(0, old(nextInode), kind, false)] else old(objects)
      ensures reported ==> !ok && Stuck(rollbacks[|old(rollbacks)|..], p)
    {
      reported := false;
      ok := Create(p, kind);
      if !ok { return; }
      StillRooted(old(objects), p, objects[p]);
      var failed := Call();
      ok := !failed;
      if failed {
        ghost var from := calls;
        var removed := Remove(p, kind);
        rollbacks := rollbacks + [Rollback(p, from, calls)];
        reported := !removed;
        ghost var tries := rollbacks[|old(rollbacks)|..];
        assert |tries| == 1 && tries[0] == Rollback(p, from, calls);
        assert faults(from) ==> !Clean(from, calls);
        assert removed ==> objects == old(objects);
      }
    }
  }

  lemma StillRooted(before: map<Path, Object>, p: Path, o: Object)
    requires Rooted(before) && Free(before, p)
    ensures Rooted(before[p := o]) && forall q | q in before :: !ChildOf(q, p)
  {
    forall r, q | q in before[p := o] && ChildOf(q, r) && |r| > 0 ensures IsDirectory(before[p := o], r) {
      if q == p { assert r == p[..|p| - 1]; } else { assert IsDirectory(before, r); }
    }
  }

  /** Objects have only gone away, and each of them was recorded with the identity it had. */
  ghost predicate OnlyRecordedGone(before: map<Path, Object>, after: map<Path, Object>, entries: seq<Entry>) {
    && (forall p | p in after :: p in before && after[p] == before[p])
    && forall p | p in before && p !in after :: exists i | 0 <= i < |entries| :: entries[i].path == p && Matches(before[p], entries[i])
  }

  /** Nothing has been put into a recorded directory but what was recorded after it. */
  ghost predicate NothingElse(objects: map<Path, Object>, entries: seq<Entry>) {
    forall i, q | 0 <= i < |entries| && entries[i].kind.Directory? && q in objects && ChildOf(q, entries[i].path) ::
      exists j | i < j < |entries| :: entries[j].path == q
  }

  /** Every recorded object is where it was, or gone. */
  ghost predicate NoneReplaced(objects: map<Path, Object>, entries: seq<Entry>) {
    forall i | 0 <= i < |entries| && entries[i].path in objects :: Matches(objects[entries[i].path], entries[i])
  }

  /**
    If a recorded object is still there, then a call of its own attempt failed, or it had
    been replaced, or it is a directory with something in it that stays or was to go later.
  */
  ghost predicate Excused(before: map<Path, Object>, now: map<Path, Object>, entries: seq<Entry>, i: nat, clean: bool)
    requires i < |entries|
  {
    var e := entries[i];
    e.path in before && e.path in now ==>
      || !clean || !Matches(before[e.path], e)
      || (e.kind.Directory? && exists q | q in before && ChildOf(q, e.path) ::
            q in now || exists j | 0 <= j < i :: entries[j].path == q)
  }

  /** The entries from `i` on have been gone through, the last one first. */
  ghost predicate AllExcused(h: Host, tries: seq<Rollback>, before: map<Path, Object>, now: map<Path, Object>, entries: seq<Entry>, i: nat) {
    && i <= |entries| && |tries| == |entries| - i
    && forall k | 0 <= k < |tries| ::
         && tries[k].path == entries[|entries| - 1 - k].path
         && Excused(before, now, entries, |entries| - 1 - k, h.Clean(tries[k].from, tries[k].to))
  }

  class Guard {
    const host: Host
    var entries: seq<Entry>
    var armed: bool

    constructor (host: Host)
      ensures this.host == host && entries == [] && armed
    {
      this.host := host;
      entries, armed := [], true;
    }

    method Track(p: Path, kind: Kind) returns (ok: bool)
      modifies this`entries, host`calls
      ensures host.calls == old(host.calls) + 1
      ensures ok ==> p in host.objects && entries == old(entries) + [Entry(p, host.objects[p].device, host.objects[p].inode, kind)]
                     && Matches(host.objects[p], entries[|entries| - 1])
      ensures !ok ==> entries == old(entries)
      ensures ok <==> !host.faults(old(host.calls)) && p in host.objects
                      && host.objects[p].kind == kind && !host.objects[p].symlink
    {
      var failed := host.Call();
      ok := !failed && p in host.objects && !host.objects[p].symlink && host.objects[p].kind == kind;
      if ok { entries := entries + [Entry(p, host.objects[p].device, host.objects[p].inode, kind)]; }
    }

    method Disarm()
      modifies this
      ensures entries == [] && !armed
    {
      entries, armed := [], false;
    }

    /** Gone or where it was, and with nothing in it. */
    ghost predicate Unharmed(e: Entry)
      reads this, host
    {
      && (e.path in host.objects ==> Matches(host.objects[e.path], e))
      && (e.kind.Directory? ==> !host.HasChildren(e.path))
    }

    /** One recorded object: absent is fine, another one in its place is left alone. */
    method RollBack(e: Entry) returns (ok: bool)
      modifies host`objects, host`calls, host`rollbacks
      ensures old(host.calls) <= host.calls && host.rollbacks == old(host.rollbacks) + [Rollback(e.path, old(host.calls), host.calls)]
      ensures host.objects == old(host.objects) ||
              (e.path in old(host.objects) && Matches(old(host.objects)[e.path], e) && host.objects == old(host.objects) - {e.path})
      ensures ok ==> e.path !in host.objects
      ensures !ok ==> host.objects == old(host.objects) && (!host.Clean(old(host.calls), host.calls) || !old(Unharmed(e)))
      ensures old(Rooted(host.objects)) ==> Rooted(host.objects)
    {
      var failed := host.Call();
      if failed {
        ok := false;
      } else if e.path !in host.objects {
        ok := true;
      } else if !Matches(host.objects[e.path], e) {
        ok := false;
      } else {
        ok := host.Remove(e.path, e.kind);
      }
      host.rollbacks := host.rollbacks + [Rollback(e.path, old(host.calls), host.calls)];
    }

    /**
      Rolls everything back, the last object first, and goes on after a failure. No object
      but a recorded one is ever removed, every one that stays has its own reason, and when
      nothing was replaced and nothing else was added every directory is found empty.
    */
    method Cleanup() returns (ok: bool)
      modifies this, host`objects, host`calls, host`rollbacks
      ensures entries == [] && !armed
      ensures old(host.calls) <= host.calls && old(host.rollbacks) <= host.rollbacks
      ensures host.Clean(old(host.calls), host.calls) ==> !host.Hampered(host.rollbacks[|old(host.rollbacks)|..])
      ensures OnlyRecordedGone(old(host.objects), host.objects, old(entries))
      ensures AllExcused(host, host.rollbacks[|old(host.rollbacks)|..], old(host.objects), host.objects, old(entries), 0)
      ensures ok ==> forall i | 0 <= i < |old(entries)| :: old(entries)[i].path !in host.objects
      ensures !ok ==> host.Hampered(host.rollbacks[|old(host.rollbacks)|..]) || !NothingElse(old(host.objects), old(entries))
                      || !NoneReplaced(old(host.objects), old(entries))
      ensures old(Rooted(host.objects)) ==> Rooted(host.objects)
    {
      hide NothingElse, AllExcused, OnlyRecordedGone, Matches, Rooted, Host.Hampered;
      var drained := entries;
      entries := [];
      ok := true;
      ghost var since := |host.rollbacks|;
      NoneTried(host, host.objects, drained);
      assert host.rollbacks[since..] == [];
      var i := |drained|;
      while i > 0
        invariant 0 <= i <= |drained| && entries == []
        invariant old(host.calls) <= host.calls && old(host.rollbacks) <= host.rollbacks
        invariant host.Clean(old(host.calls), host.calls) ==> !host.Hampered(host.rollbacks[since..])
        invariant OnlyRecordedGone(old(host.objects), host.objects, drained)
        invariant AllExcused(host, host.rollbacks[since..], old(host.objects), host.objects, drained, i)
        invariant ok ==> forall j | i <= j < |drained| :: drained[j].path !in host.objects
        invariant !ok ==> host.Hampered(host.rollbacks[since..]) || !NothingElse(old(host.objects), drained) || !NoneReplaced(old(host.objects), drained)
        invariant old(Rooted(host.objects)) ==> Rooted(host.objects)
      {
        i := i - 1;
        ghost var before, tries := host.objects, host.rollbacks[since..];
        if ok && NothingElse(old(host.objects), drained) && drained[i].kind.Directory? {
          EmptyByNow(old(host.objects), host.objects, drained, i);
        }
        ghost var unharmed, from := Unharmed(drained[i]), host.calls;
        var done := RollBack(drained[i]);
        assert host.rollbacks[since..] == tries + [Rollback(drained[i].path, from, host.calls)];
        host.HamperedSnoc(tries, Rollback(drained[i].path, from, host.calls));
        assert !done && host.Clean(from, host.calls) ==> !unharmed;
        OneMoreGone(old(host.objects), before, host.objects, drained, i);
        OneMoreExcused(host, tries, Rollback(drained[i].path, from, host.calls), old(host.objects), before, host.objects, drained, i);
        ok := ok && done;
      }
      armed := false;
    }

    /** What happens when the guard goes out of scope. */
    method Drop() returns (reported: bool)
      modifies this, host`objects, host`calls, host`rollbacks
      ensures !armed && old(host.calls) <= host.calls && old(host.rollbacks) <= host.rollbacks
      ensures host.Clean(old(host.calls), host.calls) ==> !host.Hampered(host.rollbacks[|old(host.rollbacks)|..])
      ensures !old(armed) ==> host.objects == old(host.objects) && !reported
      ensures old(armed) ==>
                && OnlyRecordedGone(old(host.objects), host.objects, old(entries))
                && AllExcused(host, host.rollbacks[|old(host.rollbacks)|..], old(host.objects), host.objects, old(entries), 0)
      ensures old(armed) && !reported ==> forall i | 0 <= i < |old(entries)| :: old(entries)[i].path !in host.objects
      ensures reported ==> host.Hampered(host.rollbacks[|old(host.rollbacks)|..]) || !NothingElse(old(host.objects), old(entries))
                           || !NoneReplaced(old(host.objects), old(entries))
      ensures old(Rooted(host.objects)) ==> Rooted(host.objects)
    {
      hide AllExcused, OnlyRecordedGone, NothingElse, NoneReplaced, Rooted;
      reported := false;
      if armed {
        var ok := Cleanup();
        reported := !ok;
      }
    }
  }

  lemma NoneTried(h: Host, objects: map<Path, Object>, entries: seq<Entry>)
    ensures !h.Hampered([]) && OnlyRecordedGone(objects, objects, entries) && AllExcused(h, [], objects, objects, entries, |entries|)
  {
  }

  lemma EmptyByNow(before: map<Path, Object>, now: map<Path, Object>, entries: seq<Entry>, i: nat)
    requires i < |entries| && entries[i].kind.Directory?
    requires OnlyRecordedGone(before, now, entries) && NothingElse(before, entries)
    requires forall j | i < j < |entries| :: entries[j].path !in now
    ensures forall q | q in now :: !ChildOf(q, entries[i].path)
  {
  }

  lemma OneMoreGone(first: map<Path, Object>, before: map<Path, Object>, now: map<Path, Object>, entries: seq<Entry>, i: nat)
    requires i < |entries| && OnlyRecordedGone(first, before, entries)
    requires now == before ||
             (entries[i].path in before && Matches(before[entries[i].path], entries[i]) && now == before - {entries[i].path})
    ensures OnlyRecordedGone(first, now, entries)
  {
    forall p | p in first && p !in now ensures exists j | 0 <= j < |entries| :: entries[j].path == p && Matches(first[p], entries[j]) {
      if p in before { assert entries[i].path == p && Matches(first[p], entries[i]); }
    }
  }

  lemma OneMoreExcused(h: Host, tries: seq<Rollback>, t: Rollback, first: map<Path, Object>, before: map<Path, Object>,
                       now: map<Path, Object>, entries: seq<Entry>, i: nat)
    requires i < |entries| && OnlyRecordedGone(first, before, entries)
    requires AllExcused(h, tries, first, before, entries, i + 1)
    requires var e := entries[i]; t.path == e.path && (now == before || now == before - {e.path})
    requires var e := entries[i];
             e.path in now ==>
               || !h.Clean(t.from, t.to) || !Matches(before[e.path], e)
               || (e.kind.Directory? && exists q | q in before :: ChildOf(q, e.path))
    ensures AllExcused(h, tries + [t], first, now, entries, i)
  {
    hide Matches;
    var e := entries[i];
    assert Excused(first, now, entries, i, h.Clean(t.from, t.to)) by {
      if e.path in now && h.Clean(t.from, t.to) && Matches(first[e.path], e) {
        assert now == before;
        var q :| q in before && ChildOf(q, e.path);
        assert q in first && q in now;
      }
    }
    var more := tries + [t];
    forall k | 0 <= k < |more| ensures Excused(first, now, entries, |entries| - 1 - k, h.Clean(more[k].from, more[k].to)) {
      if k < |tries| {
        assert more[k] == tries[k];
        ExcusedStays(first, before, now, entries, i, |entries| - 1 - k, h.Clean(tries[k].from, tries[k].to));
      }
    }
  }

  lemma ExcusedStays(first: map<Path, Object>, before: map<Path, Object>, now: map<Path, Object>,
                     entries: seq<Entry>, i: nat, j: nat, clean: bool)
    requires i < j < |entries| && Excused(first, before, entries, j, clean)
    requires now == before || now == before - {entries[i].path}
    ensures Excused(first, now, entries, j, clean)
  {
    hide Matches;
    var e := entries[j];
    if e.path in first && e.path in now && clean && Matches(first[e.path], e) {
      var q :| q in first && ChildOf(q, e.path) && (q in before || exists k | 0 <= k < j :: entries[k].path == q);
      assert q in now || entries[i].path == q || exists k | 0 <= k < j :: entries[k].path == q;
    }
  }

  /** The objects to create, in order. */
  datatype Fixture = Fixture(path: Path, kind: Kind)

  /** The guard has recorded exactly these, and they are there. */
  ghost predicate Recorded(objects: map<Path, Object>, entries: seq<Entry>, made: seq<Fixture>) {
    && |entries| == |made|
    && forall i | 0 <= i < |made| ::
         && entries[i].path == made[i].path && entries[i].kind == made[i].kind
         && made[i].path in objects && Matches(objects[made[i].path], entries[i])
  }

  ghost predicate Among(p: Path, made: seq<Fixture>) {
    exists i | 0 <= i < |made| :: made[i].path == p
  }

  /** What was there is still there as it was, and what is new is what was made, and the extra. */
  ghost predicate Grown(before: map<Path, Object>, after: map<Path, Object>, made: seq<Fixture>, extra: set<Path>) {
    && (forall p | p in before :: p in after && after[p] == before[p])
    && (forall p | p in after && p !in before :: p in extra || Among(p, made))
    && (forall p | p in extra :: p in after && p !in before && !Among(p, made))
    && forall i | 0 <= i < |made| :: made[i].path !in before
  }

  /** Each path is listed once, and in a listed directory there is only what is listed after it, and the extra. */
  ghost predicate Ordered(objects: map<Path, Object>, made: seq<Fixture>, extra: set<Path>) {
    && (forall i | 0 <= i < |made| :: made[i].path != [])
    && (forall i, j | 0 <= i < j < |made| :: made[i].path != made[j].path)
    && forall i, q | 0 <= i < |made| && q in objects && ChildOf(q, made[i].path) :: q in extra || Among(q, made[i + 1..])
  }

  /** The path of each fixture is free when those before it have been made. */
  ghost predicate Creatable(objects: map<Path, Object>, fixtures: seq<Fixture>) {
    forall i | 0 <= i < |fixtures| :: CreatableAfter(objects, fixtures[..i], fixtures[i].path)
  }

  ghost predicate CreatableAfter(objects: map<Path, Object>, made: seq<Fixture>, p: Path) {
    && p !in objects && !Among(p, made) && |p| > 0
    && (|p| > 1 ==> IsDirectory(objects, p[..|p| - 1]) || Fixture(p[..|p| - 1], Directory) in made)
  }

  /** The calls of a set-up for the first `i` fixtures: create, fill, record and, for a file, take a snapshot. */
  ghost function Calls(fixtures: seq<Fixture>, i: nat): nat
    requires i <= |fixtures|
  {
    if i == 0 then 0 else Calls(fixtures, i - 1) + if fixtures[i - 1].kind.File? then 4 else 3
  }

  /** Nothing fails until fixture `i`, which is created and filled like those before it, is to be recorded. */
  ghost predicate FailsToRecord(h: Host, at: nat, objects: map<Path, Object>, fixtures: seq<Fixture>, i: nat) {
    && i < |fixtures| && (forall j | 0 <= j <= i :: CreatableAfter(objects, fixtures[..j], fixtures[j].path))
    && h.Clean(at, at + Calls(fixtures, i) + 2) && h.faults(at + Calls(fixtures, i) + 2)
  }

  /** The fixtures made so far, and the extra one, are all that is new, and the guard knows them. */
  ghost predicate Standing(first: map<Path, Object>, now: map<Path, Object>, entries: seq<Entry>, made: seq<Fixture>, extra: set<Path>) {
    Recorded(now, entries, made) && Ordered(now, made, extra) && Grown(first, now, made, extra)
  }

  /** Creates and records one fixture. */
  method MakeOne(guard: Guard, f: Fixture, ghost first: map<Path, Object>, ghost made: seq<Fixture>)
    returns (ok: bool, reported: bool, ghost extra: set<Path>)
    requires Rooted(guard.host.objects) && |guard.entries| == |made|
    requires Standing(first, guard.host.objects, guard.entries, made, {})
    modifies guard`entries, guard.host
    ensures Rooted(guard.host.objects) && old(guard.host.rollbacks) <= guard.host.rollbacks && old(guard.host.calls) <= guard.host.calls
    ensures || (|guard.entries| == |made| && Standing(first, guard.host.objects, guard.entries, made, extra))
            || (|guard.entries| == |made| + 1 && extra == {} && Standing(first, guard.host.objects, guard.entries, made + [f], {}))
    ensures extra == {} || (!ok && extra == {f.path} && |guard.entries| == |made|)
    ensures ok ==>
              && |guard.entries| == |made| + 1 && !reported && CreatableAfter(first, made, f.path)
              && guard.host.calls == old(guard.host.calls) + (if f.kind.File? then 4 else 3)
              && guard.host.Clean(old(guard.host.calls), guard.host.calls) && guard.host.rollbacks == old(guard.host.rollbacks)
    ensures reported ==> !ok && guard.host.Hampered(guard.host.rollbacks[|old(guard.host.rollbacks)|..])
    ensures var at := old(guard.host.calls);
            extra != {} ==>
              || (reported && guard.host.Stuck(guard.host.rollbacks[|old(guard.host.rollbacks)|..], f.path))
              || (CreatableAfter(first, made, f.path) && guard.host.Clean(at, at + 2) && guard.host.faults(at + 2))
    ensures guard.host.Clean(old(guard.host.calls), guard.host.calls) ==>
              && (ok <==> CreatableAfter(first, made, f.path)) && extra == {} && guard.host.rollbacks == old(guard.host.rollbacks)
    ensures var at := old(guard.host.calls);
            CreatableAfter(first, made, f.path) && guard.host.Clean(at, at + 2) && guard.host.faults(at + 2) ==>
              !ok && extra == {f.path} && guard.host.calls == at + 3 && guard.host.rollbacks == old(guard.host.rollbacks)
    ensures var at := old(guard.host.calls);
            CreatableAfter(first, made, f.path) && guard.host.Clean(at, at + (if f.kind.File? then 4 else 3)) ==> ok
  {
    hide Recorded, Ordered, Grown, Free, CreatableAfter, Rooted, Host.Hampered, Host.Stuck;
    var host := guard.host;
    extra := {};
    ghost var before, entries := host.objects, guard.entries;
    FreeExactly(first, before, entries, made, f.path);
    ok, reported := host.CreateFixture(f.path, f.kind);
    if ok || reported { MadeExtra(first, before, host.objects[f.path], entries, made, f.path); }
    if !ok {
      if reported {
        extra := {f.path};
        host.StuckIsHampered(host.rollbacks[|old(host.rollbacks)|..], f.path);
      }
      return;
    }
    ok := guard.Track(f.path, f.kind);
    if !ok { extra := {f.path}; return; }
    MadeNext(first, before, host.objects, guard.entries, made, f);
    if f.kind.File? {
      var failed := host.Call();
      ok := !failed;
    }
  }

  /** Creates and records one fixture after the other. */
  method MakeAll(guard: Guard, fixtures: seq<Fixture>) returns (ok: bool, reported: bool, ghost extra: set<Path>)
    requires Rooted(guard.host.objects) && guard.entries == []
    modifies guard`entries, guard.host
    ensures |guard.entries| <= |fixtures| && Rooted(guard.host.objects) && old(guard.host.rollbacks) <= guard.host.rollbacks
    ensures old(guard.host.calls) <= guard.host.calls
    ensures Standing(old(guard.host.objects), guard.host.objects, guard.entries, fixtures[..|guard.entries|], extra)
    ensures ok ==> |guard.entries| == |fixtures| && extra == {} && !reported
    ensures extra == {} || (|guard.entries| < |fixtures| && extra == {fixtures[|guard.entries|].path})
    ensures reported ==> !ok && guard.host.Hampered(guard.host.rollbacks[|old(guard.host.rollbacks)|..])
    ensures extra != {} ==>
              || (reported && guard.host.Stuck(guard.host.rollbacks[|old(guard.host.rollbacks)|..], fixtures[|guard.entries|].path))
              || FailsToRecord(guard.host, old(guard.host.calls), old(guard.host.objects), fixtures, |guard.entries|)
    ensures guard.host.Clean(old(guard.host.calls), guard.host.calls) ==>
              && extra == {} && (ok <==> Creatable(old(guard.host.objects), fixtures))
              && !guard.host.Hampered(guard.host.rollbacks[|old(guard.host.rollbacks)|..])
    ensures forall i: nat | FailsToRecord(guard.host, old(guard.host.calls), old(guard.host.objects), fixtures, i) ::
              && !ok && extra == {fixtures[i].path} && guard.host.calls == old(guard.host.calls) + Calls(fixtures, i) + 3
              && guard.host.rollbacks == old(guard.host.rollbacks)
  {
    hide Standing, CreatableAfter, Rooted, Host.Hampered, Host.Stuck, FailsToRecord;
    var host := guard.host;
    ghost var first, start := host.objects, host.calls;
    reported, extra := false, {};
    NothingMade(host, host.objects);
    assert fixtures[..0] == [] && host.rollbacks[|old(host.rollbacks)|..] == [];
    for i := 0 to |fixtures|
      invariant Rooted(host.objects) && host.rollbacks == old(host.rollbacks) && |guard.entries| == i
      invariant extra == {} && !reported && Standing(first, host.objects, guard.entries, fixtures[..i], {})
      invariant host.calls == start + Calls(fixtures, i) && host.Clean(start, host.calls)
      invariant forall j | 0 <= j < i :: CreatableAfter(first, fixtures[..j], fixtures[j].path)
    {
      assert fixtures[..i + 1] == fixtures[..i] + [fixtures[i]];
      FailsFrom(host, start, first, fixtures, i);
      ok, reported, extra := MakeOne(guard, fixtures[i], first, fixtures[..i]);
      if !ok { return; }
    }
    FailsFrom(host, start, first, fixtures, |fixtures|);
    ok := true;
  }

  /** When all has gone well before fixture `i`, recording fails for none before it, and for it exactly on these terms. */
  lemma FailsFrom(h: Host, start: nat, first: map<Path, Object>, fixtures: seq<Fixture>, i: nat)
    requires i <= |fixtures| && h.Clean(start, start + Calls(fixtures, i))
    requires forall j | 0 <= j < i :: CreatableAfter(first, fixtures[..j], fixtures[j].path)
    ensures forall j: nat | FailsToRecord(h, start, first, fixtures, j) ::
              && i <= j < |fixtures| && CreatableAfter(first, fixtures[..i], fixtures[i].path)
              && (i < j ==> h.Clean(start, start + Calls(fixtures, i + 1)))
    ensures i < |fixtures| ==> var at := start + Calls(fixtures, i);
              FailsToRecord(h, start, first, fixtures, i) <==>
              CreatableAfter(first, fixtures[..i], fixtures[i].path) && h.Clean(at, at + 2) && h.faults(at + 2)
  {
    hide CreatableAfter;
    forall j: nat | FailsToRecord(h, start, first, fixtures, j)
      ensures i <= j < |fixtures| && CreatableAfter(first, fixtures[..i], fixtures[i].path)
              && (i < j ==> h.Clean(start, start + Calls(fixtures, i + 1)))
    {
      if j < i { CallsGrow(fixtures, j, i); }
      if i + 1 < j { CallsGrow(fixtures, i + 1, j); }
    }
  }

  lemma {:induction false} CallsGrow(fixtures: seq<Fixture>, i: nat, j: nat)
    requires i < j <= |fixtures|
    ensures Calls(fixtures, i) + 3 <= Calls(fixtures, j)
  {
    if i + 1 < j { CallsGrow(fixtures, i, j - 1); }
  }

  lemma NothingMade(h: Host, objects: map<Path, Object>)
    ensures !h.Hampered([]) && Standing(objects, objects, [], [], {})
  {
  }

  /** What is there tells whether the next fixture can be made. */
  lemma FreeExactly(first: map<Path, Object>, before: map<Path, Object>, entries: seq<Entry>, made: seq<Fixture>, p: Path)
    requires Recorded(before, entries, made) && Ordered(before, made, {}) && Grown(first, before, made, {})
    ensures Free(before, p) <==> CreatableAfter(first, made, p)
  {
    if |p| > 1 {
      var parent := p[..|p| - 1];
      if Fixture(parent, Directory) in made {
        var i :| 0 <= i < |made| && made[i] == Fixture(parent, Directory);
        assert IsDirectory(before, parent);
      } else if Among(parent, made) {
        var i :| 0 <= i < |made| && made[i].path == parent;
        assert !IsDirectory(before, parent);
      }
    }
  }

  lemma MadeExtra(first: map<Path, Object>, before: map<Path, Object>, o: Object, entries: seq<Entry>, made: seq<Fixture>, p: Path)
    requires Recorded(before, entries, made) && Ordered(before, made, {}) && Grown(first, before, made, {})
    requires Free(before, p)
    ensures var now := before[p := o];
            Recorded(now, entries, made) && Ordered(now, made, {p}) && Grown(first, now, made, {p})
  {
    forall i | 0 <= i < |made| ensures made[i].path != p {
      assert made[i].path in before;
    }
  }

  lemma MadeNext(first: map<Path, Object>, before: map<Path, Object>, now: map<Path, Object>, entries: seq<Entry>,
                 made: seq<Fixture>, f: Fixture)
    requires |entries| == |made| + 1 && Recorded(now, entries[..|made|], made)
    requires Ordered(now, made, {f.path}) && Grown(first, now, made, {f.path})
    requires Rooted(before) && Free(before, f.path) && f.path in now && now == before[f.path := now[f.path]]
    requires entries[|made|].path == f.path && entries[|made|].kind == f.kind && Matches(now[f.path], entries[|made|])
    ensures Recorded(now, entries, made + [f]) && Ordered(now, made + [f], {}) && Grown(first, now, made + [f], {})
  {
    hide Matches, Rooted;
    var more := made + [f];
    assert more[|made|] == f;
    StillRooted(before, f.path, now[f.path]);
    forall i, q | 0 <= i < |more| && q in now && ChildOf(q, more[i].path) ensures Among(q, more[i + 1..]) {
      if i < |made| {
        assert more[i + 1..] == made[i + 1..] + [f];
        if q == f.path { assert more[i + 1..][|made| - i - 1] == f; } else { StillAmong(q, made[i + 1..], f); }
      }
    }
    forall p | p in now && p !in first ensures Among(p, more) {
      if p != f.path { StillAmong(p, made, f); }
    }
    assert f.path in {f.path} && !Among(f.path, made);
    forall i, j | 0 <= i < j < |more| ensures more[i].path != more[j].path {
      if j == |made| { assert made[i].path != f.path; }
    }
  }

  lemma StillAmong(p: Path, made: seq<Fixture>, f: Fixture)
    requires Among(p, made)
    ensures Among(p, made + [f])
  {
    var i :| 0 <= i < |made| && made[i].path == p;
    assert (made + [f])[i] == made[i];
  }

  /** What was there before is there as it was. */
  ghost predicate Kept(before: map<Path, Object>, after: map<Path, Object>) {
    forall p | p in before :: p in after && after[p] == before[p]
  }

  /** The fixture at `u` is left, and nothing else but fixtures it is in. */
  ghost predicate LeftUpTo(before: map<Path, Object>, after: map<Path, Object>, fixtures: seq<Fixture>, u: Path) {
    && u in after && u !in before
    && forall p | p in after && p !in before :: p <= u && Among(p, fixtures)
  }

  /** The fixture at `u` is left in a directory that is left with it. */
  ghost predicate StuckBelow(before: map<Path, Object>, after: map<Path, Object>, u: Path) {
    u in after && u !in before && exists p | p in after && p !in before :: p < u
  }

  /** A new object that is left has outlived a failed call that was to remove it, or holds something new. */
  ghost predicate Accounted(h: Host, tries: seq<Rollback>, before: map<Path, Object>, after: map<Path, Object>, p: Path) {
    h.Stuck(tries, p) || exists q | q in after && q !in before :: ChildOf(q, p)
  }

  /**
    A whole set-up. When no call of the rollback fails, a failure leaves all as it was exactly
    if it was not a fixture that had been created and could not be recorded; that one is left,
    with the directories above it. Such directories are reported, the fixture alone is not.
  */
  method SetUp(host: Host, fixtures: seq<Fixture>) returns (ok: bool, reported: bool)
    requires Rooted(host.objects)
    modifies host
    ensures Rooted(host.objects) && Kept(old(host.objects), host.objects) && old(host.rollbacks) <= host.rollbacks
    ensures ok ==> !reported && forall i | 0 <= i < |fixtures| :: fixtures[i].path in host.objects && fixtures[i].path !in old(host.objects)
    ensures !ok && !reported ==>
              || host.objects == old(host.objects)
              || exists i: nat | FailsToRecord(host, old(host.calls), old(host.objects), fixtures, i) ::
                   AtMostPlus(old(host.objects), host.objects, fixtures[i].path)
    ensures !ok && !host.Hampered(host.rollbacks[|old(host.rollbacks)|..]) ==>
              || host.objects == old(host.objects)
              || exists i: nat | FailsToRecord(host, old(host.calls), old(host.objects), fixtures, i) ::
                   LeftUpTo(old(host.objects), host.objects, fixtures, fixtures[i].path)
    ensures !host.Hampered(host.rollbacks[|old(host.rollbacks)|..]) ==>
              (!ok && host.objects != old(host.objects) <==>
               exists i: nat :: FailsToRecord(host, old(host.calls), old(host.objects), fixtures, i))
    ensures reported && !host.Hampered(host.rollbacks[|old(host.rollbacks)|..]) ==>
              exists i: nat | FailsToRecord(host, old(host.calls), old(host.objects), fixtures, i) ::
                StuckBelow(old(host.objects), host.objects, fixtures[i].path)
    ensures !ok ==> forall p | p in host.objects && p !in old(host.objects) ::
              || Accounted(host, host.rollbacks[|old(host.rollbacks)|..], old(host.objects), host.objects, p)
              || exists i: nat | FailsToRecord(host, old(host.calls), old(host.objects), fixtures, i) :: fixtures[i].path == p
    ensures host.Clean(old(host.calls), host.calls) ==>
              && !reported && (ok <==> Creatable(old(host.objects), fixtures)) && (!ok ==> host.objects == old(host.objects))
    ensures forall i: nat | FailsToRecord(host, old(host.calls), old(host.objects), fixtures, i) ::
              && !ok && fixtures[i].path in host.objects && fixtures[i].path !in old(host.objects)
              && (host.Clean(old(host.calls) + Calls(fixtures, i) + 3, host.calls) ==> !host.Hampered(host.rollbacks[|old(host.rollbacks)|..]))
  {
    hide Recorded, Ordered, Grown, Rooted, Host.Hampered, Host.Stuck, FailsToRecord, Creatable;
    var guard := new Guard(host);
    ghost var extra, first := {}, host.objects;
    ok, reported, extra := MakeAll(guard, fixtures);
    ghost var made, tried := fixtures[..|guard.entries|], host.rollbacks[|old(host.rollbacks)|..];
    if ok {
      ok := BindListeners(host);
    }
    if ok {
      assert made == fixtures;
      AllMade(first, host.objects, guard.entries, fixtures);
      guard.Disarm();
    } else {
      ghost var since := host.rollbacks;
      var logged := Unwind(guard, first, made, extra);
      assert host.rollbacks[|old(host.rollbacks)|..] == tried + host.rollbacks[|since|..];
      host.HamperedConcat(tried, host.rollbacks[|since|..]);
      forall p | host.Stuck(tried, p) || host.Stuck(host.rollbacks[|since|..], p) ensures host.Stuck(tried + host.rollbacks[|since|..], p) {
        host.StuckConcat(tried, host.rollbacks[|since|..], p);
      }
      if extra != {} && host.Stuck(tried, fixtures[|made|].path) { host.StuckIsHampered(tried, fixtures[|made|].path); }
      if !host.Hampered(host.rollbacks[|since|..]) { Concluded(first, host.objects, fixtures, |made|, extra); }
      reported := reported || logged;
    }
  }

  /** The smallest case: one file that is created and filled, but cannot be looked at. It stays, and nothing says so. */
  method LeftSilently() returns (host: Host, ok: bool, reported: bool)
    ensures !ok && !reported && fresh(host) && ["probe"] in host.objects
  {
    var fixtures := [Fixture(["probe"], File)];
    host := new Host(map[], 0, c => c == 2);
    assert FailsToRecord(host, 0, host.objects, fixtures, 0);
    ok, reported := SetUp(host, fixtures);
  }

  method BindListeners(host: Host) returns (ok: bool)
    modifies host`calls
    ensures old(host.calls) <= host.calls && (host.Clean(old(host.calls), host.calls) ==> ok)
  {
    ok := true;
    for i := 0 to 3
      invariant old(host.calls) <= host.calls && ok
    {
      var failed := host.Call();
      if failed { return false; }
    }
  }

  /** The guard goes out of scope armed. */
  method Unwind(guard: Guard, ghost first: map<Path, Object>, ghost made: seq<Fixture>, ghost extra: set<Path>) returns (logged: bool)
    requires guard.armed && Rooted(guard.host.objects) && Recorded(guard.host.objects, guard.entries, made)
    requires Ordered(guard.host.objects, made, extra) && Grown(first, guard.host.objects, made, extra)
    modifies guard, guard.host`objects, guard.host`calls, guard.host`rollbacks
    ensures Rooted(guard.host.objects) && Kept(first, guard.host.objects)
    ensures old(guard.host.calls) <= guard.host.calls && old(guard.host.rollbacks) <= guard.host.rollbacks
    ensures forall p | p in extra :: p in guard.host.objects && p !in first
    ensures !logged ==> forall p | p in guard.host.objects :: p in first || p in extra
    ensures forall p | p in guard.host.objects && p !in first && p !in extra ::
              Accounted(guard.host, guard.host.rollbacks[|old(guard.host.rollbacks)|..], first, guard.host.objects, p)
    ensures var tries := guard.host.rollbacks[|old(guard.host.rollbacks)|..];
            && (guard.host.Clean(old(guard.host.calls), guard.host.calls) ==> !guard.host.Hampered(tries))
            && (!guard.host.Hampered(tries) ==>
                  && (forall p | p in guard.host.objects && p !in first && p !in extra :: Among(p, made) && exists u | u in extra :: p < u)
                  && (logged ==> exists u | u in extra :: StuckBelow(first, guard.host.objects, u)))
  {
    hide Recorded, Ordered, Grown, Rooted, Host.Hampered, AllExcused, OnlyRecordedGone, NothingElse, NoneReplaced, StuckBelow, Kept, Accounted;
    var host := guard.host;
    ghost var before, entries, since := host.objects, guard.entries, |host.rollbacks|;
    OnlyExtraInTheWay(before, entries, made, extra);
    logged := guard.Drop();
    ghost var tries := host.rollbacks[since..];
    RolledBack(host, tries, first, before, host.objects, entries, made, extra);
    if logged && !host.Hampered(tries) {
      ghost var i, u :| 0 <= i < |made| && u in extra && ChildOf(u, made[i].path);
      ParentStays(first, before, host.objects, made, extra, i, u);
    }
  }

  ghost predicate AtMostPlus(before: map<Path, Object>, after: map<Path, Object>, extra: Path) {
    forall p | p in after :: p in before || p == extra
  }

  /** Without a failed call in the rollback, what is left of the recorded fixtures is above the extra one. */
  lemma {:induction false} LeftIsAbove(h: Host, tries: seq<Rollback>, before: map<Path, Object>, now: map<Path, Object>,
                                       entries: seq<Entry>, made: seq<Fixture>, extra: set<Path>, i: nat)
    requires Recorded(before, entries, made) && Ordered(before, made, extra) && i < |made| && made[i].path in now
    requires AllExcused(h, tries, before, now, entries, 0) && !h.Hampered(tries)
    ensures exists u | u in extra :: made[i].path < u
    decreases |made| - i
  {
    hide Matches;
    var k := |entries| - 1 - i;
    assert h.Clean(tries[k].from, tries[k].to) && Excused(before, now, entries, |entries| - 1 - k, h.Clean(tries[k].from, tries[k].to));
    var q :| q in before && ChildOf(q, made[i].path) && (q in now || exists j | 0 <= j < i :: entries[j].path == q);
    if q !in extra {
      assert Among(q, made[i + 1..]);
      var j :| 0 <= j < |made[i + 1..]| && made[i + 1..][j].path == q;
      assert made[i + 1 + j].path == q;
      LeftIsAbove(h, tries, before, now, entries, made, extra, i + 1 + j);
      var u :| u in extra && made[i + 1 + j].path < u;
      assert made[i].path < u;
    }
  }

  /** A recorded fixture that is left had a failed call of its own, or holds something that is left. */
  lemma LeftForReason(h: Host, tries: seq<Rollback>, first: map<Path, Object>, before: map<Path, Object>, now: map<Path, Object>,
                      entries: seq<Entry>, made: seq<Fixture>, extra: set<Path>, i: nat)
    requires Grown(first, before, made, extra) && Recorded(before, entries, made) && Ordered(before, made, extra)
    requires AllExcused(h, tries, before, now, entries, 0) && i < |made| && made[i].path in now
    ensures Accounted(h, tries, first, now, made[i].path)
  {
    hide Matches;
    var k := |entries| - 1 - i;
    var clean := h.Clean(tries[k].from, tries[k].to);
    assert tries[k].path == made[i].path && Excused(before, now, entries, |entries| - 1 - k, clean);
    if clean {
      var q :| q in before && ChildOf(q, made[i].path) && (q in now || exists j | 0 <= j < i :: entries[j].path == q);
      if q !in extra {
        var j :| 0 <= j < |made[i + 1..]| && made[i + 1..][j].path == q;
        assert made[i + 1 + j].path == q;
      }
      assert q !in first;
      assert q in now;
    }
  }

  /** Recorded fixtures have not been replaced, and only the extra one can be in their way. */
  lemma OnlyExtraInTheWay(before: map<Path, Object>, entries: seq<Entry>, made: seq<Fixture>, extra: set<Path>)
    requires Recorded(before, entries, made) && Ordered(before, made, extra)
    ensures NoneReplaced(before, entries)
    ensures !NothingElse(before, entries) ==> exists i, u | 0 <= i < |made| && u in extra :: ChildOf(u, made[i].path)
  {
    hide Matches;
    if forall i, u | 0 <= i < |made| && u in extra :: !ChildOf(u, made[i].path) {
      forall i, q | 0 <= i < |entries| && entries[i].kind.Directory? && q in before && ChildOf(q, entries[i].path)
        ensures exists j | i < j < |entries| :: entries[j].path == q
      {
        var j :| 0 <= j < |made[i + 1..]| && made[i + 1..][j].path == q;
        assert made[i + 1 + j].path == q && entries[i + 1 + j].path == q;
      }
    }
  }

  /** The rollback, seen from the state before the set-up. */
  lemma RolledBack(h: Host, tries: seq<Rollback>, first: map<Path, Object>, before: map<Path, Object>, now: map<Path, Object>,
                   entries: seq<Entry>, made: seq<Fixture>, extra: set<Path>)
    requires Grown(first, before, made, extra) && Recorded(before, entries, made) && Ordered(before, made, extra)
    requires OnlyRecordedGone(before, now, entries) && AllExcused(h, tries, before, now, entries, 0)
    ensures Kept(first, now) && (forall p | p in extra :: p in now && p !in first)
    ensures (forall i | 0 <= i < |entries| :: entries[i].path !in now) ==> forall p | p in now :: p in first || p in extra
    ensures forall p | p in now && p !in first && p !in extra :: Accounted(h, tries, first, now, p)
    ensures !h.Hampered(tries) ==> forall p | p in now && p !in first && p !in extra :: Among(p, made) && exists u | u in extra :: p < u
  {
    hide Ordered, AllExcused, Host.Hampered, Matches, Accounted;
    forall p | p in now && p !in first && p !in extra ensures Accounted(h, tries, first, now, p) {
      var i :| 0 <= i < |made| && made[i].path == p;
      LeftForReason(h, tries, first, before, now, entries, made, extra, i);
    }
    if !h.Hampered(tries) {
      forall p | p in now && p !in first && p !in extra ensures Among(p, made) && exists u | u in extra :: p < u {
        var i :| 0 <= i < |made| && made[i].path == p;
        LeftIsAbove(h, tries, before, now, entries, made, extra, i);
      }
    }
  }

  lemma Concluded(first: map<Path, Object>, now: map<Path, Object>, fixtures: seq<Fixture>, n: nat, extra: set<Path>)
    requires n <= |fixtures| && (extra == {} || (n < |fixtures| && extra == {fixtures[n].path}))
    requires Kept(first, now) && forall p | p in extra :: p in now && p !in first
    requires forall p | p in now && p !in first && p !in extra :: Among(p, fixtures[..n]) && exists u | u in extra :: p < u
    ensures if extra == {} then now == first else LeftUpTo(first, now, fixtures, fixtures[n].path)
  {
    if extra != {} {
      assert fixtures[n].path in extra;
      forall p | p in now && p !in first ensures p <= fixtures[n].path && Among(p, fixtures) {
        if p !in extra {
          var i :| 0 <= i < n && fixtures[..n][i].path == p;
          assert fixtures[i].path == p;
        }
      }
    }
  }

  lemma AllMade(first: map<Path, Object>, now: map<Path, Object>, entries: seq<Entry>, made: seq<Fixture>)
    requires Grown(first, now, made, {}) && Recorded(now, entries, made)
    ensures Kept(first, now) && forall i | 0 <= i < |made| :: made[i].path in now && made[i].path !in first
  {
  }

  /** If a directory that holds the extra fixture is in the way, it is left as well. */
  lemma ParentStays(first: map<Path, Object>, before: map<Path, Object>, now: map<Path, Object>, made: seq<Fixture>, extra: set<Path>, i: nat, u: Path)
    requires Grown(first, before, made, extra) && Ordered(before, made, extra) && Rooted(now)
    requires i < |made| && u in extra && u in now && ChildOf(u, made[i].path)
    ensures StuckBelow(first, now, u)
  {
    assert IsDirectory(now, made[i].path);
    assert made[i].path < u;
  }
}
