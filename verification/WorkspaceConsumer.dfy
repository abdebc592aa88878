/**
  The consumer's side of a sealed workspace: its own validation of the tree, and the
  post-order grant of group access once the tree is out of the public directory.
*/
module WorkspaceConsumer {
  import opened Common
  import opened WorkspaceTree

  datatype Access = Private | GroupReadable

  function DirectoryMode(access: Access): nat {
    if access.Private? then SEALED_DIRECTORY_MODE else GRANTED_DIRECTORY_MODE
  }

  function FileMode(access: Access): nat {
    if access.Private? then SEALED_FILE_MODE else GRANTED_FILE_MODE
  }

  ghost predicate ModesOf(n: Node, owner: Owner, access: Access) {
    HasModes(n, owner, DirectoryMode(access), FileMode(access))
  }

  ghost predicate ModesOfAll(es: seq<Entry>, owner: Owner, access: Access) {
    forall i | 0 <= i < |es| :: ModesOf(es[i].node, owner, access)
  }

  /** What the consumer demands of a tree: modes and owners everywhere, extent within its limits. */
  ghost predicate ConsumerAccepts(n: Node, owner: Owner, access: Access) {
    n.Directory? && ModesOf(n, owner, access) && Within(Measure(n), 0, 0, 0, CONSUMER_LIMITS)
  }

  /** Validates everything below `directory`; the caller has checked the directory's own modes. */
  method ValidateDirectory(k: Kernel, directory: Node, owner: Owner, access: Access, depth: nat, tally: Tally)
    returns (ok: bool)
    requires directory.Directory? && tally.WithinLimits()
    modifies k`calls, tally
    ensures old(k.calls) <= k.calls
    ensures ok <==>
              && !directory.meta.acl && ModesOfAll(directory.entries, owner, access)
              && Within(Measure(directory), depth, old(tally.entries), old(tally.bytes), tally.limits)
              && k.Clean(old(k.calls), k.calls)
    ensures ok ==>
              && tally.entries == old(tally.entries) + Measure(directory).entries
              && tally.bytes == old(tally.bytes) + Measure(directory).bytes && tally.WithinLimits()
    decreases directory, 0
  {
    var failed := k.Fails();
    if failed { assert k.faults(old(k.calls)); return false; }
    if depth > tally.limits.depth || directory.meta.acl { return false; }
    var es := directory.entries;
    ghost var entries0, bytes0 := tally.entries, tally.bytes;
    assert es[..0] == [];
    for i := 0 to |es|
      invariant old(k.calls) <= k.calls && k.Clean(old(k.calls), k.calls)
      invariant ModesOfAll(es[..i], owner, access)
      invariant depth + MeasureAll(es[..i]).depth <= tally.limits.depth
      invariant tally.entries == entries0 + MeasureAll(es[..i]).entries
      invariant tally.bytes == bytes0 + MeasureAll(es[..i]).bytes
      invariant tally.WithinLimits()
    {
      EntryWithin(es, i, depth, entries0, bytes0, tally.limits);
      var valid := ValidateEntry(k, es[i].node, owner, access, depth, tally);
      if !valid { return false; }
      MeasureSnoc(es, i);
      assert es[..i + 1] == es[..i] + [es[i]];
    }
    assert es[..|es|] == es;
    ok := true;
  }

  /** One round of the validation loop. */
  method ValidateEntry(k: Kernel, entry: Node, owner: Owner, access: Access, depth: nat, tally: Tally)
    returns (ok: bool)
    requires tally.WithinLimits() && depth <= tally.limits.depth
    modifies k`calls, tally
    ensures old(k.calls) <= k.calls
    ensures ok <==>
              && ModesOf(entry, owner, access)
              && Within(EntryMeasure(entry), depth, old(tally.entries) + 1, old(tally.bytes), tally.limits)
              && k.Clean(old(k.calls), k.calls)
    ensures ok ==>
              && tally.entries == old(tally.entries) + 1 + Measure(entry).entries
              && tally.bytes == old(tally.bytes) + Measure(entry).bytes && tally.WithinLimits()
    decreases entry, 1
  {
    var failed := k.Fails();
    if failed { assert k.faults(old(k.calls)); return false; }
    tally.entries := tally.entries + 1;
    if tally.entries > tally.limits.entries { return false; }
    if entry.Symlink? || entry.meta.uid != owner.uid || entry.meta.gid != owner.gid { return false; }
    match entry {
      case Directory(_, meta, _) =>
        if meta.mode != DirectoryMode(access) { return false; }
        ok := ValidateDirectory(k, entry, owner, access, depth + 1, tally);
      case File(_, meta, bytes) =>
        if meta.mode != FileMode(access) || meta.links != 1 || meta.acl { return false; }
        failed := k.Fails();
        if failed { assert k.faults(old(k.calls) + 1); return false; }
        tally.bytes := tally.bytes + |bytes|;
        ok := tally.bytes <= tally.limits.bytes;
      case _ => ok := false;
    }
  }

  // ----- granting group access -----

  /** A directory that the group can enter has a fully granted subtree. */
  ghost predicate GrantSafe(n: Node, owner: Owner)
    decreases n
  {
    n.Directory? ==>
      && (n.meta.mode == GRANTED_DIRECTORY_MODE ==> ModesOf(n, owner, GroupReadable))
      && forall i | 0 <= i < |n.entries| :: GrantSafe(n.entries[i].node, owner)
  }

  /** The group can walk from the top of the tree to one of its files. */
  ghost predicate GroupReaches(n: Node)
    decreases n
  {
    match n
    case File(_, meta, _) => meta.mode == GRANTED_FILE_MODE
    case Directory(_, meta, es) =>
      meta.mode == GRANTED_DIRECTORY_MODE && exists i | 0 <= i < |es| :: GroupReaches(es[i].node)
    case _ => false
  }

  lemma {:induction false} PrivateIsGrantSafe(n: Node, owner: Owner)
    requires ModesOf(n, owner, Private)
    ensures GrantSafe(n, owner)
  {
    if n.Directory? {
      forall i | 0 <= i < |n.entries| ensures GrantSafe(n.entries[i].node, owner) {
        PrivateIsGrantSafe(n.entries[i].node, owner);
      }
    }
  }

  /** No byte is reachable by the group before the whole tree has been granted. */
  lemma ReachableOnlyWhenGranted(root: Node, owner: Owner)
    requires root.Directory? && GrantSafe(root, owner) && GroupReaches(root)
    ensures ModesOf(root, owner, GroupReadable)
  {
  }

  /** `after` is `before` with some modes changed, safe for the group if `before` was. */
  ghost predicate Step(before: Node, after: Node, owner: Owner) {
    && SameContent(before, after) && after.ino == before.ino
    && (GrantSafe(before, owner) ==> GrantSafe(after, owner))
  }

  ghost predicate StepAll(before: seq<Entry>, after: seq<Entry>, owner: Owner) {
    && |after| == |before|
    && forall i | 0 <= i < |before| ::
         before[i].name == after[i].name && Step(before[i].node, after[i].node, owner)
  }

  lemma {:induction false} SameContentRefl(n: Node)
    ensures SameContent(n, n)
  {
    if n.Directory? {
      forall i | 0 <= i < |n.entries| ensures SameContent(n.entries[i].node, n.entries[i].node) {
        SameContentRefl(n.entries[i].node);
      }
    }
  }

  /** The grant counts entries and depth, not bytes. */
  predicate Countable(m: Extent, depth: nat, entries: nat, limits: Limits) {
    depth + m.depth <= limits.depth && entries + m.entries <= limits.entries
  }

  lemma EntryCountable(es: seq<Entry>, i: nat, depth: nat, entries: nat, limits: Limits)
    requires i < |es|
    ensures Countable(MeasureAll(es), depth, entries, limits) ==>
              Countable(EntryMeasure(es[i].node), depth, entries + MeasureAll(es[..i]).entries + 1, limits)
  {
    MeasureSnoc(es, i);
    PrefixWithinWhole(es, i + 1);
  }

  ghost predicate Granted(before: Node, after: Node, owner: Owner) {
    SameContent(before, after) && ModesOf(after, owner, GroupReadable)
  }

  /** Entries before i are granted, entry i is `current`, and the rest is untouched. */
  function Replaced(es: seq<Entry>, done: seq<Entry>, current: Node): seq<Entry>
    requires |done| < |es|
  {
    done + [Entry(es[|done|].name, current)] + es[|done| + 1..]
  }

  lemma ReplacedStep(es: seq<Entry>, done: seq<Entry>, current: Node, owner: Owner)
    requires |done| < |es| && StepAll(es[..|done|], done, owner) && Step(es[|done|].node, current, owner)
    ensures StepAll(es, Replaced(es, done, current), owner)
  {
    var after := Replaced(es, done, current);
    forall j | 0 <= j < |es| ensures es[j].name == after[j].name && Step(es[j].node, after[j].node, owner) {
      if j < |done| { assert es[..|done|][j] == es[j] && after[j] == done[j]; }
      else if j > |done| { SameContentRefl(es[j].node); }
    }
  }

  lemma DirectoryStep(before: Node, after: seq<Entry>, owner: Owner)
    requires before.Directory? && StepAll(before.entries, after, owner)
    requires before.meta.mode != GRANTED_DIRECTORY_MODE
    ensures Step(before, before.(entries := after), owner)
  {
  }

  method EnterPrivateDirectory(k: Kernel, directory: Node, owner: Owner, depth: nat, tally: Tally) returns (ok: bool)
    requires directory.Directory?
    modifies k`calls
    ensures old(k.calls) <= k.calls
    ensures ok <==>
              && depth <= tally.limits.depth
              && directory.meta.uid == owner.uid && directory.meta.gid == owner.gid
              && directory.meta.mode == SEALED_DIRECTORY_MODE && !directory.meta.acl
              && k.Clean(old(k.calls), k.calls)
  {
    var failed := k.Fails();
    if failed { assert k.faults(old(k.calls)); return false; }
    ok := depth <= tally.limits.depth
          && directory.meta.uid == owner.uid && directory.meta.gid == owner.gid
          && directory.meta.mode == SEALED_DIRECTORY_MODE && !directory.meta.acl;
  }

  /** The last step of a directory: its own mode, once everything below it is granted. */
  method OpenToGroup(k: Kernel, directory: Node, done: seq<Entry>, owner: Owner) returns (ok: bool, after: Node)
    requires directory.Directory? && directory.meta.mode == SEALED_DIRECTORY_MODE && !directory.meta.acl
    requires directory.meta.uid == owner.uid && directory.meta.gid == owner.gid
    requires StepAll(directory.entries, done, owner) && ModesOfAll(done, owner, GroupReadable)
    modifies k`calls
    ensures old(k.calls) <= k.calls
    ensures ok <==> k.Clean(old(k.calls), k.calls)
    ensures ok ==> Granted(directory, after, owner)
    ensures Step(directory, after, owner)
    ensures after.meta.mode == directory.meta.mode || ModesOf(after, owner, GroupReadable)
  {
    DirectoryStep(directory, done, owner);
    after := directory.(entries := done);
    var failed := k.Fails();
    if failed { assert k.faults(k.calls - 1); return false, after; }
    after := Directory(directory.ino, directory.meta.(mode := GRANTED_DIRECTORY_MODE), done);
    GrantedIsSafe(after, owner);
    failed := k.Fails();
    assert failed ==> k.faults(k.calls - 1);
    ok := !failed;
  }

  /** Opens a tree to the group, deepest first: files 0440 and then their directory 0550. */
  method GrantDirectory(k: Kernel, directory: Node, owner: Owner, depth: nat, tally: Tally)
    returns (ok: bool, after: Node)
    requires directory.Directory? && tally.entries <= tally.limits.entries
    modifies k`calls, tally
    ensures old(k.calls) <= k.calls
    ensures ok <==>
              && ModesOf(directory, owner, Private)
              && Countable(Measure(directory), depth, old(tally.entries), tally.limits)
              && k.Clean(old(k.calls), k.calls)
    ensures ok ==>
              && Granted(directory, after, owner)
              && tally.entries == old(tally.entries) + Measure(directory).entries
              && tally.entries <= tally.limits.entries
    ensures Step(directory, after, owner)
    ensures after.meta.mode == directory.meta.mode || ModesOf(after, owner, GroupReadable)
    decreases directory, 0
  {
    SameContentRefl(directory);
    var entered := EnterPrivateDirectory(k, directory, owner, depth, tally);
    if !entered { return false, directory; }
    var done, entries := GrantEntries(k, directory.entries, owner, depth, tally);
    if !done {
      DirectoryStep(directory, entries, owner);
      return false, directory.(entries := entries);
    }
    ok, after := OpenToGroup(k, directory, entries, owner);
  }

  /** The private entries `es` after a complete grant. */
  ghost predicate GrantedAll(es: seq<Entry>, after: seq<Entry>, owner: Owner) {
    ModesOfAll(es, owner, Private) && ModesOfAll(after, owner, GroupReadable) && StepAll(es, after, owner)
  }

  lemma GrantedSnoc(es: seq<Entry>, i: nat, done: seq<Entry>, current: Node, owner: Owner)
    requires i < |es| && GrantedAll(es[..i], done, owner)
    requires ModesOf(es[i].node, owner, Private) && Granted(es[i].node, current, owner)
    requires Step(es[i].node, current, owner)
    ensures GrantedAll(es[..i + 1], done + [Entry(es[i].name, current)], owner)
  {
    assert es[..i + 1] == es[..i] + [es[i]];
  }

  method GrantEntries(k: Kernel, es: seq<Entry>, owner: Owner, depth: nat, tally: Tally)
    returns (ok: bool, after: seq<Entry>)
    requires tally.entries <= tally.limits.entries && depth <= tally.limits.depth
    modifies k`calls, tally
    ensures old(k.calls) <= k.calls
    ensures ok <==>
              && ModesOfAll(es, owner, Private)
              && Countable(MeasureAll(es), depth, old(tally.entries), tally.limits)
              && k.Clean(old(k.calls), k.calls)
    ensures ok ==>
              && ModesOfAll(after, owner, GroupReadable)
              && tally.entries == old(tally.entries) + MeasureAll(es).entries
              && tally.entries <= tally.limits.entries
    ensures StepAll(es, after, owner)
    decreases es, 3
  {
    var done: seq<Entry> := [];
    ghost var entries0 := tally.entries;
    assert es[..0] == [];
    for i := 0 to |es|
      invariant |done| == i
      invariant old(k.calls) <= k.calls && k.Clean(old(k.calls), k.calls)
      invariant GrantedAll(es[..i], done, owner)
      invariant depth + MeasureAll(es[..i]).depth <= tally.limits.depth
      invariant tally.entries == entries0 + MeasureAll(es[..i]).entries
      invariant tally.entries <= tally.limits.entries
    {
      EntryCountable(es, i, depth, entries0, tally.limits);
      var granted, current := GrantEntry(k, es[i].node, owner, depth, tally);
      if !granted {
        assert ModesOfAll(es, owner, Private) ==> ModesOf(es[i].node, owner, Private);
        ReplacedStep(es, done, current, owner);
        return false, Replaced(es, done, current);
      }
      MeasureSnoc(es, i);
      GrantedSnoc(es, i, done, current, owner);
      done := done + [Entry(es[i].name, current)];
    }
    assert es[..|es|] == es;
    return true, done;
  }

  lemma {:induction false} GrantedIsSafe(n: Node, owner: Owner)
    requires ModesOf(n, owner, GroupReadable)
    ensures GrantSafe(n, owner)
  {
    if n.Directory? {
      forall i | 0 <= i < |n.entries| ensures GrantSafe(n.entries[i].node, owner) {
        GrantedIsSafe(n.entries[i].node, owner);
      }
    }
  }

  method GrantFile(k: Kernel, entry: Node, owner: Owner) returns (ok: bool, after: Node)
    requires entry.File? && entry.meta.uid == owner.uid && entry.meta.gid == owner.gid
    modifies k`calls
    ensures old(k.calls) <= k.calls
    ensures ok <==> ModesOf(entry, owner, Private) && k.Clean(old(k.calls), k.calls)
    ensures ok ==> Granted(entry, after, owner)
    ensures Step(entry, after, owner)
  {
    after := entry;
    if entry.meta.mode != SEALED_FILE_MODE || entry.meta.links != 1 || entry.meta.acl { return false, after; }
    var failed := k.Fails();
    if failed { assert k.faults(old(k.calls)); return false, after; }
    after := File(entry.ino, entry.meta.(mode := GRANTED_FILE_MODE), entry.bytes);
    failed := k.Fails();
    assert failed ==> k.faults(old(k.calls) + 1);
    ok := !failed;
  }

  /** One round of the grant loop. */
  method GrantEntry(k: Kernel, entry: Node, owner: Owner, depth: nat, tally: Tally)
    returns (ok: bool, after: Node)
    requires tally.entries <= tally.limits.entries && depth <= tally.limits.depth
    modifies k`calls, tally
    ensures old(k.calls) <= k.calls
    ensures ok <==>
              && ModesOf(entry, owner, Private)
              && Countable(EntryMeasure(entry), depth, old(tally.entries) + 1, tally.limits)
              && k.Clean(old(k.calls), k.calls)
    ensures ok ==>
              && Granted(entry, after, owner)
              && tally.entries == old(tally.entries) + 1 + Measure(entry).entries
              && tally.entries <= tally.limits.entries
    ensures Step(entry, after, owner)
    decreases entry, 1
  {
    SameContentRefl(entry);
    after := entry;
    var failed := k.Fails();
    if failed { assert k.faults(old(k.calls)); return false, after; }
    tally.entries := tally.entries + 1;
    if tally.entries > tally.limits.entries { return false, after; }
    if entry.Symlink? || entry.meta.uid != owner.uid || entry.meta.gid != owner.gid { return false, after; }
    ghost var before := tally.entries;
    if entry.Directory? {
      if entry.meta.mode != SEALED_DIRECTORY_MODE { return false, after; }
      ok, after := GrantDirectory(k, entry, owner, depth + 1, tally);
      assert ok <==> ModesOf(entry, owner, Private) && Countable(EntryMeasure(entry), depth, before, tally.limits)
                     && k.Clean(old(k.calls), k.calls);
    } else if entry.File? {
      ok, after := GrantFile(k, entry, owner);
      assert ok <==> ModesOf(entry, owner, Private) && Countable(EntryMeasure(entry), depth, before, tally.limits)
                     && k.Clean(old(k.calls), k.calls);
    } else {
      ok := false;
    }
  }

  // ----- the two halves meet -----

  /** Whatever the sealer publishes under its own limits passes the consumer's private validation. */
  lemma PublishedIsAccepted(source: Node, copy: Node, sealer: Owner, reader: Reader, lo: nat)
    requires source.Directory? && Within(Measure(source), 0, 0, 0, SEALER_LIMITS)
    requires SealedCopy(source, copy, sealer, reader, lo)
    ensures ConsumerAccepts(copy, sealer, Private)
  {
    MirrorShape(source, copy, reader);
    SameMeasure(source, copy);
  }

  /** A tree that passed private validation passes the group-readable one after a successful grant. */
  lemma GrantedIsAccepted(before: Node, after: Node, owner: Owner)
    requires ConsumerAccepts(before, owner, Private) && Granted(before, after, owner)
    ensures ConsumerAccepts(after, owner, GroupReadable)
  {
    SameContentShape(before, after);
    SameMeasure(before, after);
  }

  /** The names in every directory are distinct, as a file system keeps them. */
  ghost predicate WellNamed(n: Node)
    decreases n
  {
    n.Directory? ==> DistinctNames(n.entries) && forall i | 0 <= i < |n.entries| :: WellNamed(n.entries[i].node)
  }

  /** Every directory of a tree whose entries fit a limit can be listed under that limit. */
  lemma {:induction false} FittingIsListable(n: Node, most: nat)
    requires WellNamed(n) && Measure(n).entries <= most
    ensures Listable(n, most)
  {
    if n.Directory? {
      EntriesCounted(n.entries);
      forall i | 0 <= i < |n.entries| ensures Listable(n.entries[i].node, most) {
        MeasureSnoc(n.entries, i);
        PrefixWithinWhole(n.entries, i + 1);
        FittingIsListable(n.entries[i].node, most);
      }
    }
  }
}
