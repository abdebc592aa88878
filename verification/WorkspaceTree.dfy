/**
  Workspace trees: what the input sealer accepts and copies, what the consumer
  of a sealed workspace accepts, and how a tree is removed.

  A tree is a value. The calls that the source makes on descriptors are numbered
  by a `Kernel`, whose fault schedule says for each call number whether that call
  fails; a property of every failing return is therefore a property of every
  intermediate state. What reads of a file return is up to whoever can write the file.
*/
module WorkspaceTree {
  import opened Common
  import opened VerifiedCopy

  type Name = string

  datatype Meta = Meta(uid: nat, gid: nat, mode: nat, links: nat, acl: bool)

  datatype Node =
    | File(ino: nat, meta: Meta, bytes: seq<Byte>)
    | Directory(ino: nat, meta: Meta, entries: seq<Entry>)
    | Symlink(ino: nat, meta: Meta)
    | Special(ino: nat, meta: Meta)

  datatype Entry = Entry(name: Name, node: Node)

  datatype Owner = Owner(uid: nat, gid: nat)

  datatype Limits = Limits(entries: nat, depth: nat, bytes: nat)

  // Permission bits, written in decimal: 0o2770, 0o640, 0o700, 0o500, 0o400.
  const SOURCE_DIRECTORY_MODE: nat := 1528
  const SOURCE_FILE_MODE: nat := 416
  const PRIVATE_ROOT_MODE: nat := 448
  const SEALED_DIRECTORY_MODE: nat := 320
  const SEALED_FILE_MODE: nat := 256
  // 0o550 and 0o440.
  const GRANTED_DIRECTORY_MODE: nat := 360
  const GRANTED_FILE_MODE: nat := 288

  const WORKSPACE_ENTRY_MAX: nat := 8192
  const WORKSPACE_DEPTH_MAX: nat := 32
  const SEALER_TOTAL_BYTES_MAX: nat := 2112 * 1024 * 1024
  const CONSUMER_TOTAL_BYTES_MAX: nat := 2 * 1024 * 1024 * 1024 + 64 * 1024 * 1024

  const SEALER_LIMITS := Limits(WORKSPACE_ENTRY_MAX, WORKSPACE_DEPTH_MAX, SEALER_TOTAL_BYTES_MAX)
  const CONSUMER_LIMITS := Limits(WORKSPACE_ENTRY_MAX, WORKSPACE_DEPTH_MAX, CONSUMER_TOTAL_BYTES_MAX)

  predicate ForbiddenName(name: Name) {
    name in {".git", ".codex", ".agents", "AGENTS.md", "hooks.json"}
  }

  /** What reading the file with an inode number returns, read by read. */
  type Reader = nat -> Script

  /**
    System calls in program order, and the inode numbers handed out by creations. A call that
    fails does so for lack of permission if `denied` says so.
  */
  class Kernel {
    const faults: nat -> bool
    const denied: nat -> bool
    const reader: Reader
    var calls: nat
    var nextInode: nat

    constructor (faults: nat -> bool, denied: nat -> bool, reader: Reader, nextInode: nat)
      ensures this.faults == faults && this.denied == denied && this.reader == reader
      ensures calls == 0 && this.nextInode == nextInode
    {
      this.faults, this.denied, this.reader := faults, denied, reader;
      this.calls := 0;
      this.nextInode := nextInode;
    }

    /** No call numbered in from..to fails. */
    ghost predicate Clean(from: nat, to: nat) {
      forall i | from <= i < to :: !faults(i)
    }

    /** No call fails at all. */
    ghost predicate Faultless() {
      forall i :: !faults(i)
    }

    method Fails() returns (failed: bool)
      modifies this`calls
      ensures calls == old(calls) + 1 && failed == faults(old(calls))
    {
      failed := faults(calls);
      calls := calls + 1;
    }

    method Allocate() returns (ino: nat)
      modifies this`nextInode
      ensures ino == old(nextInode) && nextInode == old(nextInode) + 1
    {
      ino := nextInode;
      nextInode := nextInode + 1;
    }
  }

  // ----- extent of a tree -----

  /** Entries below the root, bytes in its files, and directory levels below it. */
  datatype Extent = Extent(entries: nat, bytes: nat, depth: nat)

  function Measure(n: Node): Extent
    decreases n, 1
  {
    match n
    case File(_, _, bytes) => Extent(0, |bytes|, 0)
    case Directory(_, _, entries) => MeasureAll(entries)
    case _ => Extent(0, 0, 0)
  }

  function MeasureAll(es: seq<Entry>): Extent
    decreases es, 0
  {
    if es == [] then Extent(0, 0, 0)
    else
      Plus(MeasureAll(es[..|es| - 1]), EntryMeasure(es[|es| - 1].node))
  }

  predicate Within(m: Extent, depth: nat, entries: nat, bytes: nat, limits: Limits) {
    && depth + m.depth <= limits.depth
    && entries + m.entries <= limits.entries
    && bytes + m.bytes <= limits.bytes
  }

  /** The extent of an entry as seen from the directory that holds it. */
  function EntryMeasure(n: Node): Extent
    decreases n, 2
  {
    var m := Measure(n);
    if n.Directory? then m.(depth := m.depth + 1) else m
  }

  function Plus(a: Extent, b: Extent): Extent {
    Extent(a.entries + 1 + b.entries, a.bytes + b.bytes, Max(a.depth, b.depth))
  }

  lemma MeasureSnoc(es: seq<Entry>, i: nat)
    requires i < |es|
    ensures MeasureAll(es[..i + 1]) == Plus(MeasureAll(es[..i]), EntryMeasure(es[i].node))
  {
    assert es[..i + 1][..i] == es[..i];
  }

  lemma {:induction false} PrefixWithinWhole(es: seq<Entry>, i: nat)
    requires i <= |es|
    ensures var a, b := MeasureAll(es[..i]), MeasureAll(es);
            a.entries <= b.entries && a.bytes <= b.bytes && a.depth <= b.depth
    decreases |es| - i
  {
    if i == |es| {
      assert es[..i] == es;
    } else {
      MeasureSnoc(es, i);
      PrefixWithinWhole(es, i + 1);
    }
  }

  lemma {:induction false} EntriesCounted(es: seq<Entry>)
    ensures |es| <= MeasureAll(es).entries
  {
    if es != [] { EntriesCounted(es[..|es| - 1]); }
  }

  // ----- what the sealer accepts, and what it produces -----

  ghost predicate DistinctNames(es: seq<Entry>) {
    forall i, j | 0 <= i < j < |es| :: es[i].name != es[j].name
  }

  predicate SourceFileValid(n: Node, owner: Owner) {
    n.File? && n.meta == Meta(owner.uid, owner.gid, SOURCE_FILE_MODE, 1, false)
  }

  predicate SourceDirectoryValid(n: Node, owner: Owner) {
    && n.Directory?
    && n.meta.uid == owner.uid && n.meta.gid == owner.gid
    && n.meta.mode == SOURCE_DIRECTORY_MODE
  }

  /** Names, types, owners and modes are allowed, and both passes over every file get the same. */
  ghost predicate SourceAllowed(n: Node, owner: Owner, reader: Reader)
    decreases n
  {
    match n
    case File(ino, _, bytes) => SourceFileValid(n, owner) && Delivered(reader(ino), |bytes|).Some?
    case Directory(_, meta, es) =>
      && SourceDirectoryValid(n, owner) && !meta.acl && DistinctNames(es)
      && forall i | 0 <= i < |es| :: !ForbiddenName(es[i].name) && SourceAllowed(es[i].node, owner, reader)
    case _ => false
  }

  /** Same shape, names and bytes; inode numbers and metadata are not compared. */
  ghost predicate SameContent(a: Node, b: Node)
    decreases a
  {
    match a
    case File(_, _, bytes) => b.File? && b.bytes == bytes
    case Directory(_, _, es) =>
      && b.Directory? && |b.entries| == |es|
      && forall i | 0 <= i < |es| ::
           es[i].name == b.entries[i].name && SameContent(es[i].node, b.entries[i].node)
    case Symlink(_, _) => b.Symlink?
    case Special(_, _) => b.Special?
  }

  /** The copy holds in every file what both passes over the source file returned. */
  ghost predicate Mirror(source: Node, copy: Node, reader: Reader)
    decreases source
  {
    match source
    case File(ino, _, bytes) => copy.File? && Delivered(reader(ino), |bytes|) == Some(copy.bytes)
    case Directory(_, _, es) =>
      && copy.Directory? && |copy.entries| == |es|
      && forall i | 0 <= i < |es| ::
           es[i].name == copy.entries[i].name && Mirror(es[i].node, copy.entries[i].node, reader)
    case _ => false
  }

  ghost predicate MirrorAll(es: seq<Entry>, fs: seq<Entry>, reader: Reader) {
    && |fs| == |es|
    && forall i | 0 <= i < |es| :: es[i].name == fs[i].name && Mirror(es[i].node, fs[i].node, reader)
  }

  /** Nobody writes any file of the tree. */
  ghost predicate Quiescent(n: Node, reader: Reader)
    decreases n
  {
    match n
    case File(ino, _, bytes) => Quiet(reader(ino), bytes)
    case Directory(_, _, es) => forall i | 0 <= i < |es| :: Quiescent(es[i].node, reader)
    case _ => true
  }

  /** The copy of a tree that nobody writes has the tree's own bytes. */
  lemma {:induction false} QuiescentMirror(source: Node, copy: Node, reader: Reader)
    requires Quiescent(source, reader) && Mirror(source, copy, reader)
    ensures SameContent(source, copy)
  {
    match source {
      case File(ino, _, bytes) => QuietDelivered(reader(ino), bytes);
      case Directory(_, _, es) =>
        forall i | 0 <= i < |es| ensures SameContent(es[i].node, copy.entries[i].node) {
          QuiescentMirror(es[i].node, copy.entries[i].node, reader);
        }
      case _ =>
    }
  }

  /** Same names and types, and files of the same size. */
  ghost predicate SameShape(a: Node, b: Node)
    decreases a
  {
    match a
    case File(_, _, bytes) => b.File? && |b.bytes| == |bytes|
    case Directory(_, _, es) => b.Directory? && SameShapes(es, b.entries)
    case Symlink(_, _) => b.Symlink?
    case Special(_, _) => b.Special?
  }

  ghost predicate SameShapes(es: seq<Entry>, fs: seq<Entry>)
    decreases es
  {
    && |fs| == |es|
    && forall i | 0 <= i < |es| :: es[i].name == fs[i].name && SameShape(es[i].node, fs[i].node)
  }

  lemma {:induction false} SameContentShape(a: Node, b: Node)
    requires SameContent(a, b)
    ensures SameShape(a, b)
  {
    if a.Directory? {
      forall i | 0 <= i < |a.entries| ensures SameShape(a.entries[i].node, b.entries[i].node) {
        SameContentShape(a.entries[i].node, b.entries[i].node);
      }
    }
  }

  lemma {:induction false} MirrorShape(a: Node, b: Node, reader: Reader)
    requires Mirror(a, b, reader)
    ensures SameShape(a, b)
  {
    if a.Directory? {
      forall i | 0 <= i < |a.entries| ensures SameShape(a.entries[i].node, b.entries[i].node) {
        MirrorShape(a.entries[i].node, b.entries[i].node, reader);
      }
    }
  }

  lemma MirrorShapes(es: seq<Entry>, fs: seq<Entry>, reader: Reader)
    requires MirrorAll(es, fs, reader)
    ensures SameShapes(es, fs)
  {
    forall i | 0 <= i < |es| ensures SameShape(es[i].node, fs[i].node) { MirrorShape(es[i].node, fs[i].node, reader); }
  }

  lemma {:induction false} SameMeasure(a: Node, b: Node)
    requires SameShape(a, b)
    ensures Measure(a) == Measure(b)
    decreases a, 1
  {
    if a.Directory? { SameMeasureAll(a.entries, b.entries); }
  }

  lemma {:induction false} SameMeasureAll(es: seq<Entry>, fs: seq<Entry>)
    requires SameShapes(es, fs)
    ensures MeasureAll(es) == MeasureAll(fs)
    decreases es, 0
  {
    if es != [] {
      SameMeasureAll(es[..|es| - 1], fs[..|es| - 1]);
      SameMeasure(es[|es| - 1].node, fs[|es| - 1].node);
    }
  }

  // ----- what a listing can return -----

  /** Every directory of the tree can be listed whole under a cap. */
  ghost predicate Listable(n: Node, most: nat)
    decreases n
  {
    n.Directory? ==>
      && |n.entries| <= most && DistinctNames(n.entries)
      && forall i | 0 <= i < |n.entries| :: Listable(n.entries[i].node, most)
  }

  ghost predicate ListableAll(es: seq<Entry>, most: nat) {
    |es| <= most && DistinctNames(es) && forall i | 0 <= i < |es| :: Listable(es[i].node, most)
  }

  lemma {:induction false} SameShapeListable(a: Node, b: Node, most: nat)
    requires SameShape(a, b) && Listable(a, most)
    ensures Listable(b, most)
  {
    if a.Directory? {
      forall i | 0 <= i < |b.entries| ensures Listable(b.entries[i].node, most) {
        SameShapeListable(a.entries[i].node, b.entries[i].node, most);
      }
    }
  }

  // ----- what a copy that stopped has made -----

  /** The beginning of a copy: whole entries in order, of which the last may itself be a beginning. */
  ghost predicate BegunCopy(source: Node, made: Node, reader: Reader)
    decreases source
  {
    match source
    case File(_, _, bytes) => made.File? && |made.bytes| <= |bytes|
    case Directory(_, _, es) =>
      && made.Directory? && |made.entries| <= |es|
      && forall i | 0 <= i < |made.entries| ::
           && made.entries[i].name == es[i].name && BegunCopy(es[i].node, made.entries[i].node, reader)
           && (i + 1 < |made.entries| ==> Mirror(es[i].node, made.entries[i].node, reader))
    case _ => false
  }

  ghost predicate BegunCopies(es: seq<Entry>, made: seq<Entry>, reader: Reader) {
    && |made| <= |es|
    && forall i | 0 <= i < |made| ::
         && made[i].name == es[i].name && BegunCopy(es[i].node, made[i].node, reader)
         && (i + 1 < |made| ==> Mirror(es[i].node, made[i].node, reader))
  }

  lemma {:induction false} MirrorBegun(source: Node, copy: Node, reader: Reader)
    requires Mirror(source, copy, reader)
    ensures BegunCopy(source, copy, reader)
  {
    if source.Directory? {
      forall i | 0 <= i < |source.entries| ensures BegunCopy(source.entries[i].node, copy.entries[i].node, reader) {
        MirrorBegun(source.entries[i].node, copy.entries[i].node, reader);
      }
    }
  }

  /** Every directory and file of the tree has exactly the given owner and modes. */
  ghost predicate HasModes(n: Node, owner: Owner, directoryMode: nat, fileMode: nat)
    decreases n
  {
    match n
    case File(_, meta, _) => meta == Meta(owner.uid, owner.gid, fileMode, 1, false)
    case Directory(_, meta, es) =>
      && meta.uid == owner.uid && meta.gid == owner.gid && meta.mode == directoryMode && !meta.acl
      && forall i | 0 <= i < |es| :: HasModes(es[i].node, owner, directoryMode, fileMode)
    case _ => false
  }

  ghost predicate Sealed(n: Node, owner: Owner) {
    HasModes(n, owner, SEALED_DIRECTORY_MODE, SEALED_FILE_MODE)
  }

  ghost predicate SealedAll(es: seq<Entry>, owner: Owner) {
    forall i | 0 <= i < |es| :: Sealed(es[i].node, owner)
  }

  /** No directory of the tree can be entered by anyone but its owner. */
  ghost predicate OwnerOnly(n: Node)
    decreases n
  {
    n.Directory? ==>
      && n.meta.mode in {PRIVATE_ROOT_MODE, SEALED_DIRECTORY_MODE}
      && forall i | 0 <= i < |n.entries| :: OwnerOnly(n.entries[i].node)
  }

  ghost predicate OwnerOnlyAll(es: seq<Entry>) {
    forall i | 0 <= i < |es| :: OwnerOnly(es[i].node)
  }

  /** The nodes of the tree carry the inode numbers from `lo` on, in the order of creation. */
  ghost predicate Numbered(n: Node, lo: nat)
    decreases n, 1
  {
    n.ino == lo && (n.Directory? ==> NumberedAll(n.entries, lo + 1))
  }

  ghost predicate NumberedAll(es: seq<Entry>, lo: nat)
    decreases es, 0
  {
    es != [] ==>
      && NumberedAll(es[..|es| - 1], lo)
      && Numbered(es[|es| - 1].node, lo + MeasureAll(es[..|es| - 1]).entries)
  }

  function Inodes(n: Node): set<nat>
    decreases n, 1
  {
    {n.ino} + if n.Directory? then InodesAll(n.entries) else {}
  }

  function InodesAll(es: seq<Entry>): set<nat>
    decreases es, 0
  {
    if es == [] then {} else InodesAll(es[..|es| - 1]) + Inodes(es[|es| - 1].node)
  }

  lemma {:induction false} IntervalSize(s: set<nat>, lo: nat, hi: nat)
    requires lo <= hi && forall i :: i in s <==> lo <= i < hi
    ensures |s| == hi - lo
    decreases hi - lo
  {
    if lo < hi {
      assert hi - 1 in s;
      IntervalSize(s - {hi - 1}, lo, hi - 1);
    } else {
      assert forall i :: i !in s;
      assert s == {};
    }
  }

  lemma {:induction false} NumberedInodes(n: Node, lo: nat)
    requires Numbered(n, lo)
    ensures forall i :: i in Inodes(n) <==> lo <= i < lo + 1 + Measure(n).entries
    decreases n, 1
  {
    if n.Directory? { NumberedInodesAll(n.entries, lo + 1); }
  }

  lemma {:induction false} NumberedInodesAll(es: seq<Entry>, lo: nat)
    requires NumberedAll(es, lo)
    ensures forall i :: i in InodesAll(es) <==> lo <= i < lo + MeasureAll(es).entries
    decreases es, 0
  {
    if es != [] {
      var k := lo + MeasureAll(es[..|es| - 1]).entries;
      NumberedInodesAll(es[..|es| - 1], lo);
      NumberedInodes(es[|es| - 1].node, k);
    }
  }

  /** A tree numbered by creation has as many different inodes as it has nodes. */
  lemma FreshInodesDistinct(n: Node, lo: nat)
    requires Numbered(n, lo)
    ensures forall i :: i in Inodes(n) ==> lo <= i
    ensures |Inodes(n)| == 1 + Measure(n).entries
  {
    NumberedInodes(n, lo);
    IntervalSize(Inodes(n), lo, lo + 1 + Measure(n).entries);
  }

  /** `copy` has what both passes over `source` returned, final modes, and fresh inodes from `lo` on. */
  ghost predicate SealedCopy(source: Node, copy: Node, sealer: Owner, reader: Reader, lo: nat) {
    Mirror(source, copy, reader) && Sealed(copy, sealer) && OwnerOnly(copy) && Numbered(copy, lo)
  }

  /** What a rollback may find of a node that was being copied. */
  ghost predicate Remnant(source: Node, made: Node, reader: Reader, most: nat) {
    BegunCopy(source, made, reader) && OwnerOnly(made) && Listable(made, most)
  }

  lemma RemnantIsListable(source: Node, made: Node, reader: Reader, most: nat)
    requires Remnant(source, made, reader, most)
    ensures Listable(made, most)
  {
  }

  ghost predicate Remnants(es: seq<Entry>, made: seq<Entry>, reader: Reader, most: nat) {
    BegunCopies(es, made, reader) && OwnerOnlyAll(made) && ListableAll(made, most)
  }

  // ----- the fresh-inode copy -----

  /** The running counters of one walk over a tree, and the limits they are held against. */
  class Tally {
    const limits: Limits
    var entries: nat
    var bytes: nat

    constructor (limits: Limits)
      ensures this.limits == limits && entries == 0 && bytes == 0
    {
      this.limits := limits;
      entries, bytes := 0, 0;
    }

    predicate WithinLimits()
      reads this
    {
      entries <= limits.entries && bytes <= limits.bytes
    }
  }

  /**
    Enumerates a directory: a repeated name and an entry beyond the cap are errors.
  */
  method ListDirectory(k: Kernel, stream: seq<Entry>, maxEntries: nat) returns (listed: bool)
    modifies k`calls
    ensures old(k.calls) <= k.calls
    ensures listed <==> DistinctNames(stream) && |stream| <= maxEntries && k.Clean(old(k.calls), k.calls)
  {
    var failed := k.Fails();
    if failed { assert k.faults(old(k.calls)); return false; }
    var seen: set<Name> := {};
    for i := 0 to |stream|
      invariant seen == set j | 0 <= j < i :: stream[j].name
      invariant i <= maxEntries && DistinctNames(stream[..i])
      invariant k.calls == old(k.calls) + 1
    {
      if stream[i].name in seen {
        var j :| 0 <= j < i && stream[j].name == stream[i].name;
        assert !DistinctNames(stream);
        return false;
      }
      seen := seen + {stream[i].name};
      if i >= maxEntries { return false; }
    }
    assert stream[..|stream|] == stream;
    failed := k.Fails();
    listed := !failed;
  }

  /**
    Copies one file: the target is created 0600, made 0640 while it is written, and sealed
    0400 when a second pass over the source has returned what the first one did.
  */
  method CopyFile(k: Kernel, entry: Node, sourceOwner: Owner, sealer: Owner, state: Tally)
    returns (ok: bool, created: Option<Node>)
    requires entry.File?
    requires state.WithinLimits()
    modifies k, state
    ensures old(k.calls) <= k.calls
    ensures state.entries == old(state.entries)
    ensures ok <==>
              && SourceAllowed(entry, sourceOwner, k.reader)
              && old(state.bytes) + Measure(entry).bytes <= state.limits.bytes
              && k.Clean(old(k.calls), k.calls)
    ensures ok ==>
              && created.Some? && SealedCopy(entry, created.value, sealer, k.reader, old(k.nextInode))
              && k.nextInode == old(k.nextInode) + 1
              && state.bytes == old(state.bytes) + Measure(entry).bytes
    ensures created.Some? ==> Remnant(entry, created.value, k.reader, state.limits.entries)
  {
    created := None;
    var failed := k.Fails();
    if failed { assert k.faults(old(k.calls)); return false, created; }
    if !SourceFileValid(entry, sourceOwner) { return false, created; }
    state.bytes := state.bytes + |entry.bytes|;
    if state.bytes > state.limits.bytes { return false, created; }
    failed := k.Fails();
    if failed { assert k.faults(old(k.calls) + 1); return false, created; }
    var ino := k.Allocate();
    var written, contents := WriteTarget(k, entry);
    created := Some(File(ino, Meta(sealer.uid, sealer.gid, SOURCE_FILE_MODE, 1, false), contents));
    if !written { return false, created; }
    failed := k.Fails();
    if failed { assert k.faults(k.calls - 1); return false, created; }
    ok, created := true, Some(File(ino, Meta(sealer.uid, sealer.gid, SEALED_FILE_MODE, 1, false), contents));
  }

  /** The two passes over one file; every write is a call of its own. */
  method WriteTarget(k: Kernel, entry: Node) returns (ok: bool, contents: seq<Byte>)
    requires entry.File?
    modifies k`calls
    ensures old(k.calls) <= k.calls
    ensures ok <==> Delivered(k.reader(entry.ino), |entry.bytes|).Some? && k.Clean(old(k.calls), k.calls)
    ensures ok ==> Delivered(k.reader(entry.ino), |entry.bytes|) == Some(contents)
    ensures |contents| <= |entry.bytes|
  {
    var faults, first := k.faults, k.calls;
    var source := new Source(k.reader(entry.ino));
    var target := new Target((i: nat) => !faults(first + i));
    ghost var once, twice;
    ok, once, twice := CopyTwice(source, target, |entry.bytes|);
    contents := target.contents;
    k.calls := k.calls + target.writes;
    assert target.Accepted() <==> k.Clean(first, k.calls) by {
      assert forall i | first <= i < k.calls :: target.writable(i - first) == !faults(i);
      assert forall i | 0 <= i < target.writes :: target.writable(i) == !k.faults(first + i);
    }
  }

  function CopyOf(ino: nat, sealer: Owner, mode: nat, children: seq<Entry>): Node {
    Directory(ino, Meta(sealer.uid, sealer.gid, mode, 2, false), children)
  }

  lemma CopyOfRemnant(source: Node, ino: nat, sealer: Owner, mode: nat, children: seq<Entry>, reader: Reader, most: nat)
    requires source.Directory? && mode in {PRIVATE_ROOT_MODE, SEALED_DIRECTORY_MODE}
    requires Remnants(source.entries, children, reader, most)
    ensures Remnant(source, CopyOf(ino, sealer, mode, children), reader, most)
  {
  }

  lemma CopyOfSealed(source: Node, ino: nat, sourceOwner: Owner, sealer: Owner, children: seq<Entry>, reader: Reader)
    requires source.Directory? && Copied(source.entries, children, sourceOwner, sealer, reader, ino + 1)
    ensures SealedCopy(source, CopyOf(ino, sealer, SEALED_DIRECTORY_MODE, children), sealer, reader, ino)
  {
  }

  /**
    Copies one entry: a directory is created 0700, filled, and sealed 0500. What was
    created is returned on failure as well: it is what a rollback finds.
  */
  method CopyEntry(k: Kernel, entry: Node, sourceOwner: Owner, sealer: Owner, depth: nat, state: Tally)
    returns (ok: bool, created: Option<Node>)
    requires state.WithinLimits() && depth <= state.limits.depth
    modifies k, state
    ensures old(k.calls) <= k.calls
    ensures ok <==>
              && SourceAllowed(entry, sourceOwner, k.reader)
              && Within(EntryMeasure(entry), depth, old(state.entries), old(state.bytes), state.limits)
              && k.Clean(old(k.calls), k.calls)
    ensures ok ==>
              && created.Some? && SealedCopy(entry, created.value, sealer, k.reader, old(k.nextInode))
              && k.nextInode == old(k.nextInode) + 1 + Measure(entry).entries
              && state.entries == old(state.entries) + Measure(entry).entries
              && state.bytes == old(state.bytes) + Measure(entry).bytes && state.WithinLimits()
    ensures created.Some? ==> Remnant(entry, created.value, k.reader, state.limits.entries)
    decreases entry, 1
  {
    hide Remnant, Remnants, Copied, SealedCopy, CopyOf;
    match entry {
      case Directory(_, _, _) =>
        if !SourceDirectoryValid(entry, sourceOwner) { return false, None; }
        var failed := k.Fails();
        if failed { assert k.faults(old(k.calls)); return false, None; }
        var ino := k.Allocate();
        var done, children := CopyDirectory(k, entry, sourceOwner, sealer, depth + 1, state);
        CopyOfRemnant(entry, ino, sealer, PRIVATE_ROOT_MODE, children, k.reader, state.limits.entries);
        created := Some(CopyOf(ino, sealer, PRIVATE_ROOT_MODE, children));
        if !done { return false, created; }
        failed := k.Fails();
        if failed { assert k.faults(k.calls - 1); return false, created; }
        CopyOfRemnant(entry, ino, sealer, SEALED_DIRECTORY_MODE, children, k.reader, state.limits.entries);
        CopyOfSealed(entry, ino, sourceOwner, sealer, children, k.reader);
        return true, Some(CopyOf(ino, sealer, SEALED_DIRECTORY_MODE, children));
      case File(_, _, _) =>
        ok, created := CopyFile(k, entry, sourceOwner, sealer, state);
      case _ =>
        return false, None;
    }
  }

  ghost predicate AllAllowed(es: seq<Entry>, owner: Owner, reader: Reader) {
    forall i | 0 <= i < |es| :: !ForbiddenName(es[i].name) && SourceAllowed(es[i].node, owner, reader)
  }

  /** `target` is a sealed fresh copy of the entries `es`, numbered from `lo` on. */
  ghost predicate Copied(es: seq<Entry>, target: seq<Entry>, sourceOwner: Owner, sealer: Owner, reader: Reader, lo: nat) {
    && AllAllowed(es, sourceOwner, reader)
    && MirrorAll(es, target, reader) && SealedAll(target, sealer)
    && OwnerOnlyAll(target) && NumberedAll(target, lo)
  }

  lemma CopiedSnoc(es: seq<Entry>, i: nat, target: seq<Entry>, created: Node, sourceOwner: Owner, sealer: Owner, reader: Reader,
                   lo: nat)
    requires i < |es| && Copied(es[..i], target, sourceOwner, sealer, reader, lo)
    requires !ForbiddenName(es[i].name) && SourceAllowed(es[i].node, sourceOwner, reader)
    requires SealedCopy(es[i].node, created, sealer, reader, lo + MeasureAll(es[..i]).entries)
    ensures Copied(es[..i + 1], target + [Entry(es[i].name, created)], sourceOwner, sealer, reader, lo)
  {
    hide Mirror, HasModes, OwnerOnly, Numbered, SourceAllowed, SameShapes, SameShape, Measure;
    var next := target + [Entry(es[i].name, created)];
    MirrorShapes(es[..i], target, reader);
    SameMeasureAll(es[..i], target);
    assert next[..|next| - 1] == target;
    assert es[..i + 1][..i] == es[..i];
    assert forall j | 0 <= j < i :: es[..i + 1][j] == es[..i][j];
  }

  lemma NothingCopied(es: seq<Entry>, sourceOwner: Owner, sealer: Owner, reader: Reader, lo: nat, most: nat)
    ensures Copied([], [], sourceOwner, sealer, reader, lo) && Remnants(es, [], reader, most)
    ensures MeasureAll([]) == Extent(0, 0, 0)
  {
  }

  /** The next entry of a copy in progress, whole or begun. */
  lemma RemnantsSnoc(es: seq<Entry>, i: nat, target: seq<Entry>, created: Node, reader: Reader, most: nat)
    requires i < |es| <= most && DistinctNames(es) && |target| == i
    requires MirrorAll(es[..i], target, reader) && Remnants(es, target, reader, most)
    requires Remnant(es[i].node, created, reader, most)
    ensures Remnants(es, target + [Entry(es[i].name, created)], reader, most)
  {
    var next := target + [Entry(es[i].name, created)];
    forall j | 0 <= j < |next|
      ensures && next[j].name == es[j].name && BegunCopy(es[j].node, next[j].node, reader)
              && (j + 1 < |next| ==> Mirror(es[j].node, next[j].node, reader))
    {
      if j < i { assert next[j] == target[j] && es[..i][j] == es[j]; }
    }
    assert forall j | 0 <= j < i :: next[j] == target[j];
  }

  /** What an acceptable sequence of entries says about its entry i, given what precedes it. */
  lemma EntryWithin(es: seq<Entry>, i: nat, depth: nat, entries: nat, bytes: nat, limits: Limits)
    requires i < |es|
    ensures Within(MeasureAll(es), depth, entries, bytes, limits) ==>
              var m := MeasureAll(es[..i]);
              Within(EntryMeasure(es[i].node), depth, entries + m.entries + 1, bytes + m.bytes, limits)
  {
    MeasureSnoc(es, i);
    PrefixWithinWhole(es, i + 1);
  }

  /** The checks on a source directory before its entries are copied. */
  method EnterDirectory(k: Kernel, source: Node, sourceOwner: Owner, depth: nat, state: Tally) returns (ok: bool)
    requires source.Directory? && state.WithinLimits()
    modifies k`calls
    ensures old(k.calls) <= k.calls
    ensures ok <==>
              && depth <= state.limits.depth
              && SourceDirectoryValid(source, sourceOwner) && !source.meta.acl && DistinctNames(source.entries)
              && state.entries + |source.entries| <= state.limits.entries
              && k.Clean(old(k.calls), k.calls)
  {
    var failed := k.Fails();
    if failed { assert k.faults(old(k.calls)); return false; }
    if depth > state.limits.depth { return false; }
    if !SourceDirectoryValid(source, sourceOwner) || source.meta.acl { return false; }
    ok := ListDirectory(k, source.entries, state.limits.entries - state.entries);
  }

  /** Copies the entries of `source` into a target directory, in the order of the listing. */
  method CopyDirectory(k: Kernel, source: Node, sourceOwner: Owner, sealer: Owner, depth: nat, state: Tally)
    returns (ok: bool, target: seq<Entry>)
    requires source.Directory? && state.WithinLimits()
    modifies k, state
    ensures old(k.calls) <= k.calls
    ensures ok <==>
              && SourceAllowed(source, sourceOwner, k.reader)
              && Within(Measure(source), depth, old(state.entries), old(state.bytes), state.limits)
              && k.Clean(old(k.calls), k.calls)
    ensures ok ==>
              && Copied(source.entries, target, sourceOwner, sealer, k.reader, old(k.nextInode))
              && k.nextInode == old(k.nextInode) + Measure(source).entries
              && state.entries == old(state.entries) + Measure(source).entries
              && state.bytes == old(state.bytes) + Measure(source).bytes && state.WithinLimits()
    ensures Remnants(source.entries, target, k.reader, state.limits.entries)
    decreases source, 0
  {
    hide MirrorAll, BegunCopies, OwnerOnlyAll, ListableAll, SealedAll, NumberedAll, Remnants;
    target := [];
    NothingCopied(source.entries, sourceOwner, sealer, k.reader, k.nextInode, state.limits.entries);
    EntriesCounted(source.entries);
    var listed := EnterDirectory(k, source, sourceOwner, depth, state);
    if !listed { return false, target; }
    var done;
    done, target := CopyEntries(k, source.entries, sourceOwner, sealer, depth, state);
    if !done { return false, target; }
    var failed := k.Fails();
    assert failed ==> k.faults(k.calls - 1);
    ok := !failed;
  }

  method CopyEntries(k: Kernel, es: seq<Entry>, sourceOwner: Owner, sealer: Owner, depth: nat, state: Tally)
    returns (ok: bool, target: seq<Entry>)
    requires state.WithinLimits() && depth <= state.limits.depth
    requires DistinctNames(es) && |es| <= state.limits.entries
    modifies k, state
    ensures old(k.calls) <= k.calls
    ensures ok <==>
              && AllAllowed(es, sourceOwner, k.reader)
              && Within(MeasureAll(es), depth, old(state.entries), old(state.bytes), state.limits)
              && k.Clean(old(k.calls), k.calls)
    ensures ok ==>
              && Copied(es, target, sourceOwner, sealer, k.reader, old(k.nextInode))
              && k.nextInode == old(k.nextInode) + MeasureAll(es).entries
              && state.entries == old(state.entries) + MeasureAll(es).entries
              && state.bytes == old(state.bytes) + MeasureAll(es).bytes && state.WithinLimits()
    ensures Remnants(es, target, k.reader, state.limits.entries)
    decreases es, 3
  {
    hide MirrorAll, BegunCopies, OwnerOnlyAll, ListableAll, SealedAll, NumberedAll, SealedCopy, Remnant, Remnants;
    hide SourceAllowed, Measure, MeasureAll;
    target := [];
    ghost var entries0, bytes0, inode0 := state.entries, state.bytes, k.nextInode;
    NothingCopied(es, sourceOwner, sealer, k.reader, inode0, state.limits.entries);
    assert es[..0] == [];
    for i := 0 to |es|
      invariant old(k.calls) <= k.calls && k.Clean(old(k.calls), k.calls)
      invariant Copied(es[..i], target, sourceOwner, sealer, k.reader, inode0)
      invariant |target| == i && Remnants(es, target, k.reader, state.limits.entries)
      invariant depth + MeasureAll(es[..i]).depth <= state.limits.depth
      invariant k.nextInode == inode0 + MeasureAll(es[..i]).entries
      invariant state.entries == entries0 + MeasureAll(es[..i]).entries
      invariant state.bytes == bytes0 + MeasureAll(es[..i]).bytes
      invariant state.WithinLimits()
    {
      EntryWithin(es, i, depth, entries0, bytes0, state.limits);
      var done, created := CopyNext(k, es[i], sourceOwner, sealer, depth, state);
      if created.Some? { RemnantsSnoc(es, i, target, created.value, k.reader, state.limits.entries); }
      if !done {
        if created.Some? { target := target + [Entry(es[i].name, created.value)]; }
        return false, target;
      }
      MeasureSnoc(es, i);
      CopiedSnoc(es, i, target, created.value, sourceOwner, sealer, k.reader, inode0);
      target := target + [Entry(es[i].name, created.value)];
    }
    assert es[..|es|] == es;
    ok := true;
  }

  /** One round of the copy loop: deadline, entry count, name, then the entry itself. */
  method CopyNext(k: Kernel, entry: Entry, sourceOwner: Owner, sealer: Owner, depth: nat, state: Tally)
    returns (ok: bool, created: Option<Node>)
    requires state.WithinLimits() && depth <= state.limits.depth
    modifies k, state
    ensures old(k.calls) <= k.calls
    ensures ok <==>
              && !ForbiddenName(entry.name) && SourceAllowed(entry.node, sourceOwner, k.reader)
              && Within(EntryMeasure(entry.node), depth, old(state.entries) + 1, old(state.bytes), state.limits)
              && k.Clean(old(k.calls), k.calls)
    ensures ok ==>
              && created.Some? && SealedCopy(entry.node, created.value, sealer, k.reader, old(k.nextInode))
              && k.nextInode == old(k.nextInode) + 1 + Measure(entry.node).entries
              && state.entries == old(state.entries) + 1 + Measure(entry.node).entries
              && state.bytes == old(state.bytes) + Measure(entry.node).bytes && state.WithinLimits()
    ensures created.Some? ==> Remnant(entry.node, created.value, k.reader, state.limits.entries)
    decreases entry, 2
  {
    var failed := k.Fails();
    if failed { assert k.faults(old(k.calls)); return false, None; }
    state.entries := state.entries + 1;
    if state.entries > state.limits.entries { return false, None; }
    if ForbiddenName(entry.name) { return false, None; }
    ok, created := CopyEntry(k, entry.node, sourceOwner, sealer, depth, state);
  }
}
