/**
  Removing a tree, and removing it only if it is still the object that was recorded.
*/
module TreeRemoval {
  import opened Common
  import opened WorkspaceConsumer
  import opened WorkspaceTree

  /**
    A directory held open by the caller, changed in place by renames and removals, and the
    attempts that were made to clean something out of it.
  */
  class Parent {
    var entries: map<Name, Node>
    ghost var attempts: seq<Attempt>

    constructor (entries: map<Name, Node>)
      ensures this.entries == entries && attempts == []
    {
      this.entries, attempts := entries, [];
    }

    /** Since there were `since` attempts, one has been made, from the call `from` on, in which a call failed. */
    ghost predicate Hampered(k: Kernel, since: nat, from: nat)
      reads this, k`calls
    {
      exists i | since <= i < |attempts| :: Faulty(k, attempts[i], from)
    }

    /** At least two have been made, all from the call `from` on, and in each of them a call failed. */
    ghost predicate Exhausted(k: Kernel, since: nat, from: nat)
      reads this, k`calls
    {
      since + 2 <= |attempts| && forall i | since <= i < |attempts| :: Faulty(k, attempts[i], from)
    }

    lemma Earlier(k: Kernel, since: nat, from: nat, first: nat, start: nat)
      requires first <= since && start <= from
      requires Hampered(k, since, from) || Exhausted(k, since, from)
      ensures Hampered(k, first, start)
    {
      var i :| since <= i < |attempts| && Faulty(k, attempts[i], from);
      assert Faulty(k, attempts[i], start);
    }
  }

  /** An attempt made between the call `from` and now, within which a call failed. */
  ghost predicate Faulty(k: Kernel, a: Attempt, from: nat)
    reads k`calls
  {
    from <= a.from && a.to <= k.calls && !k.Clean(a.from, a.to)
  }

  /** A directory with more entries than one listing returns cannot be removed. */
  ghost predicate Removable(n: Node) {
    Listable(n, WORKSPACE_ENTRY_MAX)
  }

  /**
    `left` is what remains of `n`: the same object, holding a tail of the entries that
    `n` held, of which the first may itself be partly removed.
  */
  ghost predicate RemainsOf(left: Node, n: Node)
    decreases left
  {
    left.ino == n.ino &&
    (left.Directory? ==>
       n.Directory? && |left.entries| <= |n.entries| &&
       (left.entries != [] ==>
          var d := |n.entries| - |left.entries|;
          && left.entries[0].name == n.entries[d].name
          && RemainsOf(left.entries[0].node, n.entries[d].node)
          && left.entries[1..] == n.entries[d + 1..]))
  }

  ghost predicate Leaves(left: Option<Node>, n: Node) {
    left.Some? ==> RemainsOf(left.value, n)
  }

  /** What is left of a node is the node itself, or a directory that the group cannot enter. */
  predicate NotOpened(before: Node, left: Node) {
    left == before || (left.Directory? && left.meta.mode != GRANTED_DIRECTORY_MODE)
  }

  lemma {:induction false} RemainsOfItself(n: Node)
    ensures RemainsOf(n, n)
  {
    if n.Directory? && n.entries != [] { RemainsOfItself(n.entries[0].node); }
  }

  /** What a removal has left can be removed by the next one. */
  lemma {:induction false} RemainsRemovable(left: Node, n: Node)
    requires RemainsOf(left, n) && Removable(n)
    ensures Removable(left)
    decreases left
  {
    if left.Directory? && left.entries != [] {
      var d := |n.entries| - |left.entries|;
      RemainsRemovable(left.entries[0].node, n.entries[d].node);
      forall i | 0 < i < |left.entries| ensures left.entries[i] == n.entries[d + i] {
        assert left.entries[1..][i - 1] == n.entries[d + 1..][i - 1];
      }
    }
  }

  /** The directory when the removal stops at entry i, of which `current` is left. */
  function Stopped(n: Node, mode: nat, i: nat, current: Option<Node>): Node
    requires n.Directory? && i < |n.entries|
  {
    var rest := n.entries[i + 1..];
    Directory(n.ino, n.meta.(mode := mode),
              if current.Some? then [Entry(n.entries[i].name, current.value)] + rest else rest)
  }

  lemma StoppedRemains(n: Node, mode: nat, i: nat, current: Option<Node>)
    requires n.Directory? && i < |n.entries| && Leaves(current, n.entries[i].node)
    ensures RemainsOf(Stopped(n, mode, i, current), n)
  {
    if current == None && i + 1 < |n.entries| {
      RemainsOfItself(n.entries[i + 1].node);
      assert n.entries[i + 1..][1..] == n.entries[i + 2..];
    }
  }

  /** Whatever the sealer accepts within a limit of 8192 entries can be removed again. */
  lemma AcceptedIsRemovable(n: Node, owner: Owner, reader: Reader)
    requires SourceAllowed(n, owner, reader) && Measure(n).entries <= WORKSPACE_ENTRY_MAX
    ensures Removable(n)
  {
    AllowedIsWellNamed(n, owner, reader);
    FittingIsListable(n, WORKSPACE_ENTRY_MAX);
  }

  lemma {:induction false} AllowedIsWellNamed(n: Node, owner: Owner, reader: Reader)
    requires SourceAllowed(n, owner, reader)
    ensures WellNamed(n)
  {
    if n.Directory? {
      forall i | 0 <= i < |n.entries| ensures WellNamed(n.entries[i].node) {
        AllowedIsWellNamed(n.entries[i].node, owner, reader);
      }
    }
  }

  /** So can whatever the consumer accepts. */
  lemma ConsumedIsRemovable(n: Node, owner: Owner, access: Access)
    requires ConsumerAccepts(n, owner, access) && WellNamed(n)
    ensures Removable(n)
  {
    FittingIsListable(n, WORKSPACE_ENTRY_MAX);
  }

  /** Granting access changes nothing that a removal depends on. */
  lemma StepIsRemovable(before: Node, after: Node, owner: Owner)
    requires Step(before, after, owner) && Removable(before)
    ensures Removable(after)
  {
    SameContentShape(before, after);
    SameShapeListable(before, after, WORKSPACE_ENTRY_MAX);
  }

  /** Makes a directory listable; a source directory that cannot be re-moded is listed as it is. */
  method OpenForRemoval(k: Kernel, n: Node) returns (ok: bool, mode: nat)
    requires n.Directory?
    modifies k`calls
    ensures old(k.calls) <= k.calls
    ensures k.Clean(old(k.calls), k.calls) ==> ok
    ensures ok ==> mode == PRIVATE_ROOT_MODE || (mode == n.meta.mode == SOURCE_DIRECTORY_MODE && k.denied(old(k.calls) + 1))
  {
    mode := n.meta.mode;
    var failed := k.Fails();
    if failed { assert k.faults(old(k.calls)); return false, mode; }
    failed := k.Fails();
    if failed {
      assert k.faults(old(k.calls) + 1);
      ok := k.denied(k.calls - 1) && n.meta.mode == SOURCE_DIRECTORY_MODE;
    } else {
      ok, mode := true, PRIVATE_ROOT_MODE;
    }
  }

  /**
    Removes a node and everything below it. A directory that is being removed is not open
    to the group any more.
  */
  method RemoveTree(k: Kernel, n: Node) returns (ok: bool, left: Option<Node>)
    modifies k`calls
    ensures old(k.calls) <= k.calls
    ensures ok ==> left == None && Removable(n)
    ensures Removable(n) && k.Clean(old(k.calls), k.calls) ==> ok
    ensures Leaves(left, n)
    ensures left.Some? ==> NotOpened(n, left.value)
    ensures left == None ==> old(k.calls) < k.calls && (ok <==> !k.faults(k.calls - 1))
    ensures n.File? && k.Clean(old(k.calls), old(k.calls) + 2) ==> left == None && k.calls == old(k.calls) + 3
    decreases n
  {
    RemainsOfItself(n);
    left := Some(n);
    assert Leaves(left, n);
    var failed := k.Fails();
    if failed { assert k.faults(old(k.calls)); return false, left; }
    if n.Directory? {
      var entered, mode := OpenForRemoval(k, n);
      if !entered { return false, left; }
      left := Some(Directory(n.ino, n.meta.(mode := mode), n.entries));
      var listed := ListDirectory(k, n.entries, WORKSPACE_ENTRY_MAX);
      if !listed { return false, left; }
      for i := 0 to |n.entries|
        invariant old(k.calls) <= k.calls
        invariant forall j | 0 <= j < i :: Removable(n.entries[j].node)
      {
        var removed, current := RemoveTree(k, n.entries[i].node);
        if !removed {
          StoppedRemains(n, mode, i, current);
          return false, Some(Stopped(n, mode, i, current));
        }
      }
      left := Some(Directory(n.ino, n.meta.(mode := mode), []));
      failed := k.Fails();
      if failed { assert k.faults(k.calls - 1); return false, left; }
    }
    failed := k.Fails();
    if failed { assert k.faults(k.calls - 1); return false, left; }
    left := None;
    failed := k.Fails();
    assert failed ==> k.faults(k.calls - 1);
    ok := !failed;
  }

  /** The directory `after` differs from `before` at most in the entry `name`. */
  ghost predicate OnlyTouches(before: map<Name, Node>, after: map<Name, Node>, name: Name) {
    before - {name} == after - {name}
  }

  method RemoveTreeAt(k: Kernel, parent: Parent, name: Name) returns (ok: bool)
    modifies k`calls, parent`entries
    ensures old(k.calls) <= k.calls
    ensures OnlyTouches(old(parent.entries), parent.entries, name)
    ensures ok ==> name in old(parent.entries) && parent.entries == old(parent.entries) - {name}
    ensures name in old(parent.entries) && Removable(old(parent.entries)[name]) && k.Clean(old(k.calls), k.calls) ==> ok
    ensures name in old(parent.entries) && name !in parent.entries ==> old(k.calls) < k.calls && (ok <==> !k.faults(k.calls - 1))
    ensures name in old(parent.entries) && old(parent.entries)[name].File? && k.Clean(old(k.calls), old(k.calls) + 2) ==>
              name !in parent.entries && k.calls == old(k.calls) + 3
    ensures name in parent.entries ==>
              && name in old(parent.entries) && RemainsOf(parent.entries[name], old(parent.entries)[name])
              && NotOpened(old(parent.entries)[name], parent.entries[name])
  {
    if name !in parent.entries { return false; }
    var left;
    ok, left := RemoveTree(k, parent.entries[name]);
    match left {
      case None => parent.entries := parent.entries - {name};
      case Some(rest) => parent.entries := parent.entries[name := rest];
    }
  }

  /** Never touches an object other than the recorded one. */
  method RemoveOwnedTreeAt(k: Kernel, parent: Parent, name: Name, expected: nat) returns (ok: bool)
    modifies k`calls, parent`entries
    ensures old(k.calls) <= k.calls
    ensures OnlyTouches(old(parent.entries), parent.entries, name)
    ensures name in old(parent.entries) && old(parent.entries)[name].ino != expected ==>
              !ok && parent.entries == old(parent.entries)
    ensures ok ==>
              && name in old(parent.entries) && old(parent.entries)[name].ino == expected
              && parent.entries == old(parent.entries) - {name}
    ensures && name in old(parent.entries) && old(parent.entries)[name].ino == expected
            && Removable(old(parent.entries)[name]) && k.Clean(old(k.calls), k.calls)
            ==> ok
    ensures name in old(parent.entries) && name !in parent.entries ==> old(k.calls) < k.calls && (ok <==> !k.faults(k.calls - 1))
    ensures && name in old(parent.entries) && old(parent.entries)[name].ino == expected
            && old(parent.entries)[name].File? && k.Clean(old(k.calls), old(k.calls) + 3)
            ==> name !in parent.entries && k.calls == old(k.calls) + 4
    ensures name in parent.entries ==>
              && name in old(parent.entries) && RemainsOf(parent.entries[name], old(parent.entries)[name])
              && NotOpened(old(parent.entries)[name], parent.entries[name])
  {
    if name in parent.entries { RemainsOfItself(parent.entries[name]); }
    var failed := k.Fails();
    if failed { assert k.faults(old(k.calls)); return false; }
    if name !in parent.entries || parent.entries[name].ino != expected { return false; }
    ok := RemoveTreeAt(k, parent, name);
  }
}
