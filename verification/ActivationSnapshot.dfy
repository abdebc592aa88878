/**
  Activation verification while other processes rewrite and replace files.

  A run gives the state of the file system at every instant. The verifier reads one file
  after another, in chunks, each call at some later instant of the adversary's choosing,
  and then re-checks the identity of every file. The theorem is that it refines a check
  done at one instant: whenever it succeeds, there was an instant at which all the files
  together held bytes that pass the whole check.
*/
module ActivationSnapshot {
  import opened Common

  type Path = string

  datatype Kind = BootId | ReadOnlyData | Executable

  datatype Identity = Identity(device: nat, inode: nat, regular: bool, mode: nat, uid: nat, gid: nat,
                               links: nat, length: nat, modified: int, changed: int)

  datatype FileState = FileState(identity: Identity, bytes: seq<Byte>, capability: bool)

  /** Paths name objects; an open descriptor keeps its object when the path is replaced. */
  datatype World = World(paths: map<Path, nat>, objects: map<nat, FileState>)

  type Run = nat -> World

  const RECEIPT_MAX_BYTES: nat := 64 * 1024
  const BOOT_ID_MAX_BYTES: nat := 128
  const ACTIVE_MANIFEST_MAX_BYTES: nat := 64 * 1024
  const RUNTIME_SOURCE_MANIFEST_MAX_BYTES: nat := 1024 * 1024
  const EXECUTABLE_MAX_BYTES: nat := 256 * 1024 * 1024
  const RUNTIME_IMAGE_MAX_BYTES: nat := 1024 * 1024 * 1024
  const SQUASHFS_MAGIC: seq<Byte> := [104, 115, 113, 115]

  predicate Present(w: World, p: Path) {
    p in w.paths && w.paths[p] in w.objects
  }

  function At(w: World, p: Path): FileState
    requires Present(w, p)
  {
    w.objects[w.paths[p]]
  }

  /** The boot identifier is a pseudo-file whose timestamps mean nothing. */
  predicate Matches(kind: Kind, expected: Identity, actual: Identity) {
    if kind.BootId? then expected.(modified := actual.modified, changed := actual.changed) == actual
    else expected == actual
  }

  // Permission bits in decimal: 0o400, 0o444, 0o555, 0o755.
  predicate Trusted(kind: Kind, id: Identity, uid: nat, gid: nat, maxBytes: nat) {
    && id.regular && id.uid == uid && id.gid == gid && id.links == 1 && id.length <= maxBytes
    && match kind
       case BootId => id.mode in {256, 292}
       case ReadOnlyData => id.mode == 292 && id.length != 0
       case Executable => id.mode in {365, 493} && id.length != 0
  }

  // ----- what the adversary cannot do -----

  ghost predicate SameAt(run: Run, p: Path, i: nat, j: nat) {
    && Present(run(i), p) && Present(run(j), p)
    && run(i).paths[p] == run(j).paths[p] && At(run(i), p) == At(run(j), p)
  }

  /** A path whose file has changed never shows an earlier identity again. */
  ghost predicate PathsNeverRegain(run: Run) {
    forall p, i, k, j | i <= j <= k && Present(run(i), p) && Present(run(k), p)
                        && At(run(i), p).identity == At(run(k), p).identity ::
      SameAt(run, p, i, j)
  }

  ghost predicate ObjectsNeverRegain(run: Run) {
    forall o, i, k, j | i <= j <= k && o in run(i).objects && o in run(k).objects
                        && run(i).objects[o].identity == run(k).objects[o].identity ::
      o in run(j).objects && run(j).objects[o] == run(i).objects[o]
  }

  /** Within one boot the boot identifier is one object whose bytes and owner do not change. */
  ghost predicate BootSteady(run: Run, boot: Path) {
    forall i, j :: SteadyAt(run, boot, i, j)
  }

  ghost predicate SteadyAt(run: Run, p: Path, i: nat, j: nat) {
    && Present(run(i), p) && Present(run(j), p)
    && run(i).paths[p] == run(j).paths[p] && At(run(i), p).bytes == At(run(j), p).bytes
    && Matches(BootId, At(run(i), p).identity, At(run(j), p).identity)
  }

  ghost predicate Lawful(run: Run, boot: Path) {
    PathsNeverRegain(run) && ObjectsNeverRegain(run) && BootSteady(run, boot)
  }

  ghost predicate StampedStep(run: Run, clock: nat -> int, p: Path, i: nat, j: nat) {
    Present(run(j), p) ==> SameAt(run, p, i, j) || At(run(j), p).identity.changed > clock(i)
  }

  /** Every change carries a later stamp than anything before it. */
  ghost predicate Stamped(run: Run, clock: nat -> int) {
    && (forall i: nat, j: nat | i <= j :: clock(i) <= clock(j))
    && (forall i: nat, p | Present(run(i), p) :: At(run(i), p).identity.changed <= clock(i))
    && (forall i: nat, j: nat, p | j == i + 1 :: StampedStep(run, clock, p, i, j))
  }

  lemma {:induction false} StampsGrow(run: Run, clock: nat -> int, p: Path, i: nat, k: nat)
    requires Stamped(run, clock) && i <= k && Present(run(i), p) && Present(run(k), p)
    ensures SameAt(run, p, i, k) || At(run(k), p).identity.changed > clock(i)
    decreases k - i
  {
    if i < k {
      assert StampedStep(run, clock, p, k - 1, k);
      assert clock(i) <= clock(k - 1);
      if SameAt(run, p, k - 1, k) { StampsGrow(run, clock, p, i, k - 1); }
    }
  }

  lemma {:induction false} StampsSettle(run: Run, clock: nat -> int, p: Path, i: nat, k: nat, j: nat)
    requires Stamped(run, clock) && i <= j <= k && SameAt(run, p, i, k)
    ensures SameAt(run, p, i, j)
    decreases k - j
  {
    if j < k {
      assert StampedStep(run, clock, p, k - 1, k);
      assert At(run(k), p).identity.changed <= clock(i) <= clock(k - 1);
      StampsSettle(run, clock, p, i, k - 1, j);
    }
  }

  /** Such a file system never regains an identity. */
  lemma StampedNeverRegains(run: Run, clock: nat -> int)
    requires Stamped(run, clock)
    ensures PathsNeverRegain(run)
  {
    forall p, i, k, j | i <= j <= k && Present(run(i), p) && Present(run(k), p)
                        && At(run(i), p).identity == At(run(k), p).identity
      ensures SameAt(run, p, i, j)
    {
      StampsGrow(run, clock, p, i, k);
      StampsSettle(run, clock, p, i, k, j);
    }
  }

  // ----- observing -----

  /** The verifier's view of a run: every call happens at some later instant, and may fail. */
  class Observer {
    const run: Run
    const gaps: nat -> nat
    const sizes: nat -> nat
    const faults: nat -> bool
    var now: nat
    var calls: nat

    constructor (run: Run, gaps: nat -> nat, sizes: nat -> nat, faults: nat -> bool, start: nat)
      ensures this.run == run && this.faults == faults && now == start
    {
      this.run, this.gaps, this.sizes, this.faults := run, gaps, sizes, faults;
      now, calls := start, 0;
    }

    /** Nothing fails and nothing changes. */
    ghost predicate Quiet() {
      (forall i :: !faults(i)) && (forall i: nat :: run(i) == run(0))
    }

    method Tick() returns (failed: bool)
      modifies this
      ensures old(now) <= now && failed == faults(old(calls))
    {
      now := now + gaps(calls);
      failed := faults(calls);
      calls := calls + 1;
    }

    /** Metadata through the path, without following a link. */
    method Inspect(p: Path) returns (id: Option<Identity>)
      modifies this
      ensures old(now) <= now
      ensures id.Some? ==> Present(run(now), p) && id.value == At(run(now), p).identity
      ensures Quiet() && Present(run(now), p) ==> id.Some?
    {
      var failed := Tick();
      var w := run(now);
      id := if failed || !Present(w, p) then None else Some(At(w, p).identity);
    }

    method Open(p: Path) returns (opening: Option<nat>)
      modifies this
      ensures old(now) <= now
      ensures opening.Some? ==> Present(run(now), p) && opening.value == run(now).paths[p]
      ensures Quiet() && Present(run(now), p) ==> opening.Some?
    {
      var failed := Tick();
      var w := run(now);
      opening := if failed || !Present(w, p) then None else Some(w.paths[p]);
    }

    /** Metadata and capability attribute of an open object. */
    method Stat(handle: nat) returns (state: Option<(Identity, bool)>)
      modifies this
      ensures old(now) <= now
      ensures state.Some? ==>
                && handle in run(now).objects
                && state.value == (run(now).objects[handle].identity, run(now).objects[handle].capability)
      ensures Quiet() && handle in run(now).objects ==> state.Some?
    {
      var failed := Tick();
      var w := run(now);
      state := if failed || handle !in w.objects then None
               else Some((w.objects[handle].identity, w.objects[handle].capability));
    }

    /** Returns some bytes from `offset` on, at least one unless the end is reached. */
    method Read(handle: nat, offset: nat, limit: nat) returns (chunk: Option<seq<Byte>>)
      requires limit > 0
      modifies this
      ensures old(now) <= now
      ensures chunk.Some? ==>
                && handle in run(now).objects
                && var bytes := run(now).objects[handle].bytes;
                   && offset + |chunk.value| <= Max(offset, |bytes|)
                   && (offset <= |bytes| ==> chunk.value == bytes[offset..offset + |chunk.value|])
                   && (chunk.value == [] ==> |bytes| <= offset)
      ensures Quiet() && handle in run(now).objects ==> chunk.Some?
    {
      ghost var before := calls;
      var failed := Tick();
      var w := run(now);
      if failed || handle !in w.objects { return None; }
      var bytes := w.objects[handle].bytes;
      if offset >= |bytes| { return Some([]); }
      var size := Min(Min(Max(1, sizes(calls)), limit), |bytes| - offset);
      chunk := Some(bytes[offset..offset + size]);
    }
  }

  // ----- reading one file -----

  /** The handle behind the path is the same, with the same state, from i to j. */
  ghost predicate Stable(run: Run, p: Path, i: nat, j: nat) {
    forall t | i <= t <= j :: SteadyAt(run, p, i, t)
  }

  /** An object is there, with the same bytes, from i to j. */
  ghost predicate BytesStay(run: Run, handle: nat, i: nat, j: nat) {
    forall t | i <= t <= j :: handle in run(t).objects && handle in run(i).objects && run(t).objects[handle].bytes == run(i).objects[handle].bytes
  }

  /** Reads an open file to its end; nothing, and more than is allowed, are failures. */
  method ReadToEnd(o: Observer, ghost s: nat, handle: nat, maxBytes: nat, chunkBytes: nat) returns (bytes: Option<seq<Byte>>)
    requires chunkBytes > 0 && s <= o.now
    modifies o
    ensures old(o.now) <= o.now
    ensures bytes.Some? ==> 0 < |bytes.value| <= maxBytes
    ensures bytes.Some? && handle in o.run(s).objects && BytesStay(o.run, handle, s, o.now) ==>
              bytes.value == o.run(s).objects[handle].bytes
    ensures o.Quiet() && handle in o.run(s).objects && 0 < |o.run(s).objects[handle].bytes| <= maxBytes ==>
              bytes == Some(o.run(s).objects[handle].bytes)
  {
    var output: seq<Byte> := [];
    ghost var whole := if handle in o.run(s).objects then o.run(s).objects[handle].bytes else [];
    while true
      invariant old(o.now) <= o.now && |output| <= maxBytes
      invariant handle in o.run(s).objects && (BytesStay(o.run, handle, s, o.now) || o.Quiet()) ==> output <= whole
      decreases maxBytes - |output|
    {
      var chunk := o.Read(handle, |output|, chunkBytes);
      assert o.Quiet() ==> o.run(o.now) == o.run(0) && o.run(s) == o.run(0);
      if chunk == None { return None; }
      if chunk.value == [] {
        bytes := if output == [] then None else Some(output);
        return;
      }
      if |output| + |chunk.value| > maxBytes { return None; }
      output := output + chunk.value;
    }
  }

  /** What one look at the file system at one instant would accept. */
  function Look(w: World, p: Path, kind: Kind, maxBytes: nat, uid: nat, gid: nat): Option<Evidence> {
    if Openable(w, p, kind, maxBytes, uid, gid) && 0 < |At(w, p).bytes| <= maxBytes
    then Some(Evidence(At(w, p).bytes, At(w, p).identity))
    else None
  }

  predicate Openable(w: World, p: Path, kind: Kind, maxBytes: nat, uid: nat, gid: nat) {
    Present(w, p) && Trusted(kind, At(w, p).identity, uid, gid, maxBytes) && (kind.Executable? ==> !At(w, p).capability)
  }

  datatype Evidence = Evidence(bytes: seq<Byte>, identity: Identity)

  datatype TrustedRead = TrustedRead(evidence: Evidence, first: nat)

  /** An identity seen twice covers every instant between. */
  ghost predicate Settled(run: Run, p: Path, kind: Kind, i: nat, k: nat) {
    Stable(run, p, i, k) && (!kind.BootId? ==> forall t | i <= t <= k :: SameAt(run, p, i, t))
  }

  lemma IdentityHeld(run: Run, boot: Path, p: Path, kind: Kind, i: nat, k: nat)
    requires Lawful(run, boot) && (kind.BootId? <==> p == boot)
    requires i <= k && Present(run(i), p) && Present(run(k), p)
    requires Matches(kind, At(run(i), p).identity, At(run(k), p).identity)
    ensures Settled(run, p, kind, i, k)
  {
    forall t | i <= t <= k ensures SteadyAt(run, p, i, t) && (!kind.BootId? ==> SameAt(run, p, i, t)) {
      if !kind.BootId? { assert SameAt(run, p, i, t); }
    }
  }

  /** An opened file: its handle, the identity seen through the path, and when that was. */
  datatype OpenFile = OpenFile(handle: nat, identity: Identity, first: nat)

  method OpenTrusted(o: Observer, p: Path, kind: Kind, maxBytes: nat, uid: nat, gid: nat)
    returns (r: Option<OpenFile>)
    modifies o
    ensures old(o.now) <= o.now
    ensures r.Some? ==>
              && old(o.now) <= r.value.first <= o.now && Present(o.run(r.value.first), p)
              && r.value.identity == At(o.run(r.value.first), p).identity
              && Trusted(kind, r.value.identity, uid, gid, maxBytes)
              && forall k | o.now <= k && Settled(o.run, p, kind, r.value.first, k) ::
                   && o.run(r.value.first).paths[p] == r.value.handle
                   && Openable(o.run(r.value.first), p, kind, maxBytes, uid, gid)
    ensures o.Quiet() && Openable(o.run(0), p, kind, maxBytes, uid, gid) ==>
              r.Some? && r.value.handle == o.run(0).paths[p] && r.value.identity == At(o.run(0), p).identity
    ensures o.Quiet() && r.Some? ==> Openable(o.run(0), p, kind, maxBytes, uid, gid)
  {
    var id := o.Inspect(p);
    assert o.Quiet() ==> o.run(o.now) == o.run(0);
    if id == None || !Trusted(kind, id.value, uid, gid, maxBytes) { return None; }
    var first := o.now;
    var handle := o.Open(p);
    if handle == None { return None; }
    ghost var openedAt := o.now;
    var at := o.Stat(handle.value);
    ghost var checkedAt := o.now;
    assert o.Quiet() ==> o.run(openedAt) == o.run(0) && o.run(checkedAt) == o.run(0);
    if at == None || !Matches(kind, id.value, at.value.0) || (kind.Executable? && at.value.1) { return None; }
    r := Some(OpenFile(handle.value, id.value, first));
    forall k | o.now <= k && Settled(o.run, p, kind, first, k)
      ensures o.run(first).paths[p] == handle.value && Openable(o.run(first), p, kind, maxBytes, uid, gid)
    {
      assert SteadyAt(o.run, p, first, openedAt);
      assert kind.Executable? ==> SameAt(o.run, p, first, checkedAt);
    }
  }

  lemma StableBytesStay(run: Run, p: Path, i: nat, j: nat)
    requires Stable(run, p, i, j) && i <= j
    ensures Present(run(i), p) && BytesStay(run, run(i).paths[p], i, j)
  {
    assert SteadyAt(run, p, i, i);
    var handle := run(i).paths[p];
    forall t | i <= t <= j ensures handle in run(t).objects && run(t).objects[handle].bytes == run(i).objects[handle].bytes {
      assert SteadyAt(run, p, i, t);
    }
  }

  /** Reads a file whole, between two looks at its identity. */
  method ReadTrusted(o: Observer, ghost boot: Path, p: Path, kind: Kind, maxBytes: nat, uid: nat, gid: nat)
    returns (r: Option<TrustedRead>)
    requires Lawful(o.run, boot) && (kind.BootId? <==> p == boot)
    modifies o
    ensures old(o.now) <= o.now
    ensures r.Some? ==>
              && old(o.now) <= r.value.first <= o.now
              && Look(o.run(r.value.first), p, kind, maxBytes, uid, gid) == Some(r.value.evidence)
    ensures o.Quiet() ==>
              (if r.Some? then Some(r.value.evidence) else None) == Look(o.run(0), p, kind, maxBytes, uid, gid)
  {
    var file := OpenTrusted(o, p, kind, maxBytes, uid, gid);
    if file == None { return None; }
    var first, id := file.value.first, file.value.identity;
    ghost var atOpen := o.now;
    var bytes := ReadToEnd(o, first, file.value.handle, maxBytes, 8192);
    assert o.Quiet() ==> o.run(first) == o.run(0);
    if bytes == None { return None; }
    ghost var readAt := o.now;
    var at := o.Stat(file.value.handle);
    assert o.Quiet() ==> o.run(o.now) == o.run(0) && o.run(readAt) == o.run(0);
    if at == None || !Matches(kind, id, at.value.0) { return None; }
    var again := o.Inspect(p);
    assert o.Quiet() ==> o.run(o.now) == o.run(0);
    if again == None || !Matches(kind, id, again.value) { return None; }
    IdentityHeld(o.run, boot, p, kind, first, o.now);
    StableBytesStay(o.run, p, first, readAt);
    r := Some(TrustedRead(Evidence(bytes.value, id), first));
  }

  // ----- the check on the bytes -----

  datatype Manifest = Manifest(imageDigest: Digest, imageSize: nat, sourceDigest: Digest, policyHolds: bool)

  /** The two source entries that are bound to measured executables; the rest is `policyHolds`. */
  datatype Sources = Sources(runtime: Digest, runtimeSize: nat, probe: Digest, probeSize: nat, policyHolds: bool)

  datatype Binding = Binding(bootId: string, manifest: Digest, image: Digest, bot: Digest, launcher: Digest, runtime: Digest)

  datatype Receipt = Receipt(schemaVersion: nat, binding: Binding, codexVersion: string, model: string,
                             canaries: map<string, bool>)

  datatype Process = Process(handle: nat, isLauncher: bool)

  datatype Config = Config(receipt: Path, boot: Path, manifest: Path, bot: Path, launcher: Path, runtime: Path,
                           probe: Path, sources: Path, imagePath: Digest -> Path, uid: nat, gid: nat,
                           decodeReceipt: seq<Byte> -> Option<Receipt>, parseBoot: seq<Byte> -> Option<string>,
                           decodeManifest: seq<Byte> -> Option<Manifest>, decodeSources: seq<Byte> -> Option<Sources>,
                           current: Option<Process>)
  {
    ghost predicate Valid() {
      && boot !in {receipt, manifest, bot, launcher, runtime, probe, sources}
      && forall d :: imagePath(d) != boot
    }
  }

  const ACTIVATION_SCHEMA_VERSION: nat := 1
  const SUPPORTED_CODEX_VERSION: string := "0.142.3"
  const SUPPORTED_MODEL: string := "gpt-5.5"

  const REQUIRED_CANARIES: seq<string> := [
    "bot_crash_cleanup", "bot_socket_denied", "codex_model_auth_access", "config_worker_socket_denied",
    "credential_channel_reuse_denied", "forbidden_network_denied", "host_reboot_cleanup",
    "launcher_crash_cleanup", "launcher_socket_denied", "main_process_inspection_denied",
    "timeout_cleanup", "tool_inherited_descriptors_denied"]

  /** The three tests of the source: how many, no unknown name, every required one passed. */
  predicate ValidCanaries(canaries: map<string, bool>) {
    && |canaries| == |REQUIRED_CANARIES|
    && (forall name | name in canaries :: name in REQUIRED_CANARIES)
    && (forall i | 0 <= i < |REQUIRED_CANARIES| ::
          REQUIRED_CANARIES[i] in canaries && canaries[REQUIRED_CANARIES[i]])
  }

  /** Together they say: exactly the required set, and every one of it true. */
  lemma ValidCanariesExactly(canaries: map<string, bool>)
    ensures ValidCanaries(canaries) <==> canaries == map name | name in REQUIRED_CANARIES :: true
  {
    var all := map name | name in REQUIRED_CANARIES :: true;
    RequiredCanariesDistinct();
    if ValidCanaries(canaries) {
      assert canaries.Keys == all.Keys;
    }
    if canaries == all {
      assert |all| == |all.Keys|;
    }
  }

  lemma RequiredCanariesDistinct()
    ensures |(map name | name in REQUIRED_CANARIES :: true).Keys| == |REQUIRED_CANARIES|
  {
    var lengths := [17, 17, 23, 27, 31, 24, 19, 22, 22, 30, 15, 33];
    assert forall i | 0 <= i < 12 :: |REQUIRED_CANARIES[i]| == lengths[i];
    assert REQUIRED_CANARIES[0][4] != REQUIRED_CANARIES[1][4];
    assert REQUIRED_CANARIES[7][9] != REQUIRED_CANARIES[8][9];
    assert forall i, j | 0 <= i < j < 12 :: lengths[i] != lengths[j] || (i, j) == (0, 1) || (i, j) == (7, 8);
    assert forall i, j | 0 <= i < j < 12 :: REQUIRED_CANARIES[i] != REQUIRED_CANARIES[j];
    DistinctCardinality(REQUIRED_CANARIES, (map name | name in REQUIRED_CANARIES :: true).Keys);
  }

  predicate ValidReceipt(r: Receipt, measured: Binding) {
    && r.schemaVersion == ACTIVATION_SCHEMA_VERSION
    && r.codexVersion == SUPPORTED_CODEX_VERSION && r.model == SUPPORTED_MODEL
    && ValidCanaries(r.canaries) && r.binding == measured
  }

  predicate ImageBound(image: Evidence, m: Manifest) {
    && image.identity.length == m.imageSize && SQUASHFS_MAGIC <= image.bytes
    && |image.bytes| == m.imageSize && Sha256(image.bytes) == m.imageDigest
  }

  predicate SourcesBound(s: Sources, runtime: Evidence, probe: Evidence) {
    && s.policyHolds
    && s.runtime == Sha256(runtime.bytes) && s.runtimeSize == runtime.identity.length
    && s.probe == Sha256(probe.bytes) && s.probeSize == probe.identity.length
  }

  /** The bytes behind an executable's own handle, if its identity is the expected one and is trusted. */
  function SelfBytes(w: World, cfg: Config, handle: nat, expected: Identity): Option<seq<Byte>> {
    if handle !in w.objects then None
    else
      var self := w.objects[handle];
      if && self.identity == expected && !self.capability && 0 < |self.bytes| <= EXECUTABLE_MAX_BYTES
         && Trusted(Executable, self.identity, cfg.uid, cfg.gid, EXECUTABLE_MAX_BYTES)
      then Some(self.bytes)
      else None
  }

  /** The executable a process runs is the file that was checked. */
  predicate RunsChecked(w: World, cfg: Config, process: Process, expected: Evidence) {
    SelfBytes(w, cfg, process.handle, expected.identity) == Some(expected.bytes)
  }

  /** What the boot identifier and the active manifest say. */
  datatype Head = Head(bootId: string, manifest: Manifest, manifestBytes: seq<Byte>)

  function ReadHead(cfg: Config, boot: seq<Byte>, manifest: seq<Byte>): Option<Head> {
    var bootId := cfg.parseBoot(boot);
    var decoded := cfg.decodeManifest(manifest);
    if bootId == None || decoded == None || !decoded.value.policyHolds then None
    else Some(Head(bootId.value, decoded.value, manifest))
  }

  /** The binding that image, bot and launcher, then runtime, probe and sources measure to, if they belong together. */
  function Measure(cfg: Config, h: Head, first: seq<Evidence>, last: seq<Evidence>): Option<Binding>
    requires |first| == 3 && |last| == 3
  {
    var decoded := cfg.decodeSources(last[2].bytes);
    if && Sha256(last[2].bytes) == h.manifest.sourceDigest && decoded.Some?
       && SourcesBound(decoded.value, last[0], last[1])
    then Some(Binding(h.bootId, Sha256(h.manifestBytes), Sha256(first[0].bytes), Sha256(first[1].bytes),
                      Sha256(first[2].bytes), Sha256(last[0].bytes)))
    else None
  }

  function AtomicHead(w: World, cfg: Config): Option<Head> {
    var boot := Look(w, cfg.boot, BootId, BOOT_ID_MAX_BYTES, cfg.uid, cfg.gid);
    var manifest := Look(w, cfg.manifest, ReadOnlyData, ACTIVE_MANIFEST_MAX_BYTES, cfg.uid, cfg.gid);
    if boot == None || manifest == None then None else ReadHead(cfg, boot.value.bytes, manifest.value.bytes)
  }

  function AtomicFirst(w: World, cfg: Config, m: Manifest): (r: Option<seq<Evidence>>)
    ensures r.Some? ==> |r.value| == 3
  {
    var image := Look(w, cfg.imagePath(m.imageDigest), ReadOnlyData, RUNTIME_IMAGE_MAX_BYTES, cfg.uid, cfg.gid);
    var bot := Look(w, cfg.bot, Executable, EXECUTABLE_MAX_BYTES, cfg.uid, cfg.gid);
    var launcher := Look(w, cfg.launcher, Executable, EXECUTABLE_MAX_BYTES, cfg.uid, cfg.gid);
    if image.Some? && ImageBound(image.value, m) && bot.Some? && launcher.Some?
    then Some([image.value, bot.value, launcher.value])
    else None
  }

  function AtomicLast(w: World, cfg: Config): (r: Option<seq<Evidence>>)
    ensures r.Some? ==> |r.value| == 3
  {
    var runtime := Look(w, cfg.runtime, Executable, EXECUTABLE_MAX_BYTES, cfg.uid, cfg.gid);
    var probe := Look(w, cfg.probe, Executable, EXECUTABLE_MAX_BYTES, cfg.uid, cfg.gid);
    var sources := Look(w, cfg.sources, ReadOnlyData, RUNTIME_SOURCE_MANIFEST_MAX_BYTES, cfg.uid, cfg.gid);
    if runtime.Some? && probe.Some? && sources.Some? then Some([runtime.value, probe.value, sources.value]) else None
  }

  /** The measurement of the boot, the manifest, the image and the executables at one instant. */
  function AtomicBinding(w: World, cfg: Config): Option<Binding> {
    var head := AtomicHead(w, cfg);
    if head == None then None
    else
      var first, last := AtomicFirst(w, cfg, head.value.manifest), AtomicLast(w, cfg);
      if first == None || last == None then None else Measure(cfg, head.value, first.value, last.value)
  }

  /** The whole verification, done on one state of the file system. */
  function AtomicVerify(w: World, cfg: Config): Option<Binding> {
    var receipt := Look(w, cfg.receipt, ReadOnlyData, RECEIPT_MAX_BYTES, cfg.uid, cfg.gid);
    if receipt == None then None
    else
      var decoded := cfg.decodeReceipt(receipt.value.bytes);
      if decoded == None then None else AtomicAgainst(w, cfg, decoded.value)
  }

  function AtomicAgainst(w: World, cfg: Config, receipt: Receipt): Option<Binding> {
    var binding := AtomicBinding(w, cfg);
    if binding.Some? && ValidReceipt(receipt, binding.value) && AtomicProcess(w, cfg) then binding else None
  }

  predicate AtomicProcess(w: World, cfg: Config) {
    cfg.current.Some? ==>
      var expected := Look(w, Running(cfg), Executable, EXECUTABLE_MAX_BYTES, cfg.uid, cfg.gid);
      expected.Some? && RunsChecked(w, cfg, cfg.current.value, expected.value)
  }

  /** Where the executable of the current process is installed. */
  function Running(cfg: Config): Path
    requires cfg.current.Some?
  {
    if cfg.current.value.isLauncher then cfg.launcher else cfg.bot
  }

  // ----- the verification, call by call -----

  /** One file that has been read: what it was read as, what was seen, and since when. */
  datatype Reading = Reading(path: Path, kind: Kind, maxBytes: nat, evidence: Evidence, first: nat)

  function LookAgain(w: World, cfg: Config, r: Reading): Option<Evidence> {
    Look(w, r.path, r.kind, r.maxBytes, cfg.uid, cfg.gid)
  }

  ghost predicate Taken(run: Run, cfg: Config, r: Reading) {
    (r.kind.BootId? <==> r.path == cfg.boot) && LookAgain(run(r.first), cfg, r) == Some(r.evidence)
  }

  ghost predicate AllTaken(run: Run, cfg: Config, rs: seq<Reading>, lo: nat, hi: nat) {
    forall i | 0 <= i < |rs| :: lo <= rs[i].first <= hi && Taken(run, cfg, rs[i])
  }

  /** At instant s the file still is what was read; of the boot identifier, only the bytes. */
  ghost predicate Holds(run: Run, cfg: Config, r: Reading, s: nat) {
    && LookAgain(run(s), cfg, r).Some?
    && LookAgain(run(s), cfg, r).value.bytes == r.evidence.bytes
    && (!r.kind.BootId? ==> LookAgain(run(s), cfg, r).value == r.evidence)
  }

  ghost predicate AllHold(run: Run, cfg: Config, rs: seq<Reading>, s: nat) {
    forall i | 0 <= i < |rs| :: Holds(run, cfg, rs[i], s)
  }

  predicate Is(r: Reading, p: Path, kind: Kind, maxBytes: nat) {
    r.path == p && r.kind == kind && r.maxBytes == maxBytes
  }

  method Take(o: Observer, cfg: Config, p: Path, kind: Kind, maxBytes: nat) returns (r: Option<Reading>)
    requires Lawful(o.run, cfg.boot) && (kind.BootId? <==> p == cfg.boot)
    modifies o
    ensures old(o.now) <= o.now
    ensures r.Some? ==>
              old(o.now) <= r.value.first <= o.now && Taken(o.run, cfg, r.value) && Is(r.value, p, kind, maxBytes)
    ensures o.Quiet() ==>
              (if r.Some? then Some(r.value.evidence) else None) == Look(o.run(0), p, kind, maxBytes, cfg.uid, cfg.gid)
  {
    var taken := ReadTrusted(o, cfg.boot, p, kind, maxBytes, cfg.uid, cfg.gid);
    r := if taken == None then None
         else Some(Reading(p, kind, maxBytes, taken.value.evidence, taken.value.first));
  }

  /** A later look at the identity; if it is unchanged, the file has held since it was read. */
  method Recheck(o: Observer, cfg: Config, r: Reading, ghost s: nat) returns (ok: bool)
    requires Lawful(o.run, cfg.boot) && Taken(o.run, cfg, r) && r.first <= s <= o.now
    modifies o
    ensures old(o.now) <= o.now
    ensures ok ==> Holds(o.run, cfg, r, s)
    ensures o.Quiet() ==> ok
  {
    var id := o.Inspect(r.path);
    assert o.Quiet() ==> o.run(o.now) == o.run(0) && o.run(r.first) == o.run(0);
    ok := id.Some? && Matches(r.kind, r.evidence.identity, id.value);
    if ok {
      IdentityHeld(o.run, cfg.boot, r.path, r.kind, r.first, o.now);
      assert SteadyAt(o.run, r.path, r.first, s);
      assert !r.kind.BootId? ==> SameAt(o.run, r.path, r.first, s);
    }
  }

  method RecheckAll(o: Observer, cfg: Config, rs: seq<Reading>, ghost s: nat) returns (ok: bool)
    requires Lawful(o.run, cfg.boot) && s <= o.now && AllTaken(o.run, cfg, rs, 0, s)
    modifies o
    ensures old(o.now) <= o.now
    ensures ok ==> AllHold(o.run, cfg, rs, s)
    ensures o.Quiet() ==> ok
  {
    for i := 0 to |rs|
      invariant old(o.now) <= o.now
      invariant AllHold(o.run, cfg, rs[..i], s)
    {
      var same := Recheck(o, cfg, rs[i], s);
      if !same { return false; }
      assert rs[..i + 1] == rs[..i] + [rs[i]];
    }
    assert rs[..|rs|] == rs;
    ok := true;
  }

  /** The readings behind a head: the boot identifier, then the manifest. */
  ghost predicate ReadsHead(cfg: Config, h: Head, rs: seq<Reading>) {
    && |rs| == 2
    && Is(rs[0], cfg.boot, BootId, BOOT_ID_MAX_BYTES) && Is(rs[1], cfg.manifest, ReadOnlyData, ACTIVE_MANIFEST_MAX_BYTES)
    && ReadHead(cfg, rs[0].evidence.bytes, rs[1].evidence.bytes) == Some(h)
  }

  ghost predicate ReadsFirst(cfg: Config, m: Manifest, rs: seq<Reading>) {
    && |rs| == 3
    && Is(rs[0], cfg.imagePath(m.imageDigest), ReadOnlyData, RUNTIME_IMAGE_MAX_BYTES) && ImageBound(rs[0].evidence, m)
    && Is(rs[1], cfg.bot, Executable, EXECUTABLE_MAX_BYTES) && Is(rs[2], cfg.launcher, Executable, EXECUTABLE_MAX_BYTES)
  }

  ghost predicate ReadsLast(cfg: Config, rs: seq<Reading>) {
    && |rs| == 3
    && Is(rs[0], cfg.runtime, Executable, EXECUTABLE_MAX_BYTES) && Is(rs[1], cfg.probe, Executable, EXECUTABLE_MAX_BYTES)
    && Is(rs[2], cfg.sources, ReadOnlyData, RUNTIME_SOURCE_MANIFEST_MAX_BYTES)
  }

  function Seen(rs: seq<Reading>): seq<Evidence>
    requires |rs| == 3
  {
    [rs[0].evidence, rs[1].evidence, rs[2].evidence]
  }

  lemma HeadSettles(run: Run, cfg: Config, h: Head, rs: seq<Reading>, s: nat)
    requires ReadsHead(cfg, h, rs) && AllHold(run, cfg, rs, s)
    ensures AtomicHead(run(s), cfg) == Some(h)
  {
    assert Holds(run, cfg, rs[0], s) && Holds(run, cfg, rs[1], s);
  }

  lemma FirstSettle(run: Run, cfg: Config, m: Manifest, rs: seq<Reading>, s: nat)
    requires ReadsFirst(cfg, m, rs) && AllHold(run, cfg, rs, s)
    ensures AtomicFirst(run(s), cfg, m) == Some(Seen(rs))
  {
    assert Holds(run, cfg, rs[0], s) && Holds(run, cfg, rs[1], s) && Holds(run, cfg, rs[2], s);
  }

  lemma LastSettle(run: Run, cfg: Config, rs: seq<Reading>, s: nat)
    requires ReadsLast(cfg, rs) && AllHold(run, cfg, rs, s)
    ensures AtomicLast(run(s), cfg) == Some(Seen(rs))
  {
    assert Holds(run, cfg, rs[0], s) && Holds(run, cfg, rs[1], s) && Holds(run, cfg, rs[2], s);
  }

  method LoadHead(o: Observer, cfg: Config) returns (r: Option<(Head, seq<Reading>)>)
    requires Lawful(o.run, cfg.boot) && cfg.Valid()
    modifies o
    ensures old(o.now) <= o.now
    ensures r.Some? ==> ReadsHead(cfg, r.value.0, r.value.1) && AllTaken(o.run, cfg, r.value.1, old(o.now), o.now)
    ensures o.Quiet() ==> AtomicHead(o.run(0), cfg) == if r.Some? then Some(r.value.0) else None
  {
    var boot := Take(o, cfg, cfg.boot, BootId, BOOT_ID_MAX_BYTES);
    if boot == None { return None; }
    var bootId := cfg.parseBoot(boot.value.evidence.bytes);
    if bootId == None { return None; }
    var manifest := Take(o, cfg, cfg.manifest, ReadOnlyData, ACTIVE_MANIFEST_MAX_BYTES);
    if manifest == None { return None; }
    var m := cfg.decodeManifest(manifest.value.evidence.bytes);
    if m == None || !m.value.policyHolds { return None; }
    r := Some((Head(bootId.value, m.value, manifest.value.evidence.bytes), [boot.value, manifest.value]));
  }

  lemma ThreeTaken(run: Run, cfg: Config, a: Reading, b: Reading, c: Reading, lo: nat, hi: nat)
    requires Taken(run, cfg, a) && Taken(run, cfg, b) && Taken(run, cfg, c)
    requires lo <= a.first <= hi && lo <= b.first <= hi && lo <= c.first <= hi
    ensures AllTaken(run, cfg, [a, b, c], lo, hi)
  {
  }

  /** The image and the bot and launcher programs, in the order they are read. */
  method LoadFirst(o: Observer, cfg: Config, m: Manifest) returns (r: Option<seq<Reading>>)
    requires Lawful(o.run, cfg.boot) && cfg.Valid()
    modifies o
    ensures old(o.now) <= o.now
    ensures r.Some? ==> ReadsFirst(cfg, m, r.value) && AllTaken(o.run, cfg, r.value, old(o.now), o.now)
    ensures o.Quiet() ==> AtomicFirst(o.run(0), cfg, m) == if r.Some? then Some(Seen(r.value)) else None
  {
    var image := Take(o, cfg, cfg.imagePath(m.imageDigest), ReadOnlyData, RUNTIME_IMAGE_MAX_BYTES);
    if image == None || !ImageBound(image.value.evidence, m) { return None; }
    var bot := Take(o, cfg, cfg.bot, Executable, EXECUTABLE_MAX_BYTES);
    if bot == None { return None; }
    var launcher := Take(o, cfg, cfg.launcher, Executable, EXECUTABLE_MAX_BYTES);
    if launcher == None { return None; }
    ThreeTaken(o.run, cfg, image.value, bot.value, launcher.value, old(o.now), o.now);
    r := Some([image.value, bot.value, launcher.value]);
  }

  method LoadLast(o: Observer, cfg: Config) returns (r: Option<seq<Reading>>)
    requires Lawful(o.run, cfg.boot) && cfg.Valid()
    modifies o
    ensures old(o.now) <= o.now
    ensures r.Some? ==> ReadsLast(cfg, r.value) && AllTaken(o.run, cfg, r.value, old(o.now), o.now)
    ensures o.Quiet() ==> AtomicLast(o.run(0), cfg) == if r.Some? then Some(Seen(r.value)) else None
  {
    var runtime := Take(o, cfg, cfg.runtime, Executable, EXECUTABLE_MAX_BYTES);
    if runtime == None { return None; }
    var probe := Take(o, cfg, cfg.probe, Executable, EXECUTABLE_MAX_BYTES);
    if probe == None { return None; }
    var sources := Take(o, cfg, cfg.sources, ReadOnlyData, RUNTIME_SOURCE_MANIFEST_MAX_BYTES);
    if sources == None { return None; }
    ThreeTaken(o.run, cfg, runtime.value, probe.value, sources.value, old(o.now), o.now);
    r := Some([runtime.value, probe.value, sources.value]);
  }

  /** What loading the binding leaves: the measurement and the readings behind it. */
  datatype Loaded = Loaded(binding: Binding, h: Head, head: seq<Reading>, first: seq<Reading>, last: seq<Reading>)

  /** The readings fix the binding: wherever they all hold, one look measures the same. */
  ghost predicate Fixes(cfg: Config, l: Loaded) {
    && ReadsHead(cfg, l.h, l.head) && ReadsFirst(cfg, l.h.manifest, l.first) && ReadsLast(cfg, l.last)
    && Measure(cfg, l.h, Seen(l.first), Seen(l.last)) == Some(l.binding)
  }

  ghost predicate LoadedWithin(run: Run, cfg: Config, l: Loaded, lo: nat, hi: nat) {
    AllTaken(run, cfg, l.head, lo, hi) && AllTaken(run, cfg, l.first, lo, hi) && AllTaken(run, cfg, l.last, lo, hi)
  }

  ghost predicate LoadedHolds(run: Run, cfg: Config, l: Loaded, s: nat) {
    AllHold(run, cfg, l.head, s) && AllHold(run, cfg, l.first, s) && AllHold(run, cfg, l.last, s)
  }

  lemma BindingSettles(run: Run, cfg: Config, l: Loaded, s: nat)
    requires Fixes(cfg, l) && LoadedHolds(run, cfg, l, s)
    ensures AtomicBinding(run(s), cfg) == Some(l.binding)
  {
    HeadSettles(run, cfg, l.h, l.head, s);
    FirstSettle(run, cfg, l.h.manifest, l.first, s);
    LastSettle(run, cfg, l.last, s);
  }

  method LoadBinding(o: Observer, cfg: Config) returns (r: Option<Loaded>)
    requires Lawful(o.run, cfg.boot) && cfg.Valid()
    modifies o
    ensures old(o.now) <= o.now
    ensures r.Some? ==> Fixes(cfg, r.value) && LoadedWithin(o.run, cfg, r.value, old(o.now), o.now)
    ensures o.Quiet() ==> AtomicBinding(o.run(0), cfg) == if r.Some? then Some(r.value.binding) else None
  {
    hide ReadsHead, ReadsFirst, ReadsLast, Measure, AtomicFirst, AtomicLast, AtomicHead, Lawful, o.Quiet;
    var head := LoadHead(o, cfg);
    if head == None { return None; }
    var h := head.value.0;
    var first := LoadFirst(o, cfg, h.manifest);
    if first == None { return None; }
    var last := LoadLast(o, cfg);
    if last == None { return None; }
    var binding := Measure(cfg, h, Seen(first.value), Seen(last.value));
    if binding == None { return None; }
    r := Some(Loaded(binding.value, h, head.value.1, first.value, last.value));
  }

  method RecheckLoaded(o: Observer, cfg: Config, l: Loaded, ghost s: nat) returns (ok: bool)
    requires Lawful(o.run, cfg.boot) && s <= o.now && LoadedWithin(o.run, cfg, l, 0, s)
    modifies o
    ensures old(o.now) <= o.now
    ensures ok ==> LoadedHolds(o.run, cfg, l, s)
    ensures o.Quiet() ==> ok
  {
    ok := RecheckAll(o, cfg, l.head, s);
    if ok { ok := RecheckAll(o, cfg, l.first, s); }
    if ok { ok := RecheckAll(o, cfg, l.last, s); }
  }

  /** The candidate of a renewal: the measurement alone, before there is a receipt. */
  method VerifyCandidate(o: Observer, cfg: Config) returns (r: Option<Binding>)
    requires Lawful(o.run, cfg.boot) && cfg.Valid()
    modifies o
    ensures r.Some? ==> exists s | old(o.now) <= s <= o.now :: AtomicBinding(o.run(s), cfg) == r
    ensures o.Quiet() ==> r == AtomicBinding(o.run(0), cfg)
  {
    hide Lawful, LoadedHolds, AtomicBinding;
    var loaded := LoadBinding(o, cfg);
    if loaded == None { return None; }
    ghost var s := o.now;
    LoadedWidens(o.run, cfg, loaded.value, old(o.now), s, s);
    var same := RecheckLoaded(o, cfg, loaded.value, s);
    if !same { return None; }
    BindingSettles(o.run, cfg, loaded.value, s);
    r := Some(loaded.value.binding);
    assert AtomicBinding(o.run(s), cfg) == r;
  }

  /** The bytes of the running executable, and an instant at which they were all there. */
  method ReadSelf(o: Observer, cfg: Config, handle: nat, expected: Identity)
    returns (bytes: Option<seq<Byte>>, ghost s: nat)
    requires ObjectsNeverRegain(o.run)
    modifies o
    ensures old(o.now) <= s <= o.now
    ensures bytes.Some? ==> SelfBytes(o.run(s), cfg, handle, expected) == bytes
    ensures o.Quiet() ==> bytes == SelfBytes(o.run(0), cfg, handle, expected)
  {
    var at := o.Stat(handle);
    s := o.now;
    assert o.Quiet() ==> o.run(s) == o.run(0);
    if || at == None || !Trusted(Executable, at.value.0, cfg.uid, cfg.gid, EXECUTABLE_MAX_BYTES)
       || at.value.0 != expected || at.value.1 {
      return None, s;
    }
    bytes := ReadToEnd(o, s, handle, EXECUTABLE_MAX_BYTES, 1024 * 1024);
    if bytes == None { return None, s; }
    ghost var readAt := o.now;
    var again := o.Stat(handle);
    assert o.Quiet() ==> o.run(o.now) == o.run(0);
    if again == None || again.value.0 != at.value.0 { return None, s; }
    assert BytesStay(o.run, handle, s, o.now);
    assert BytesStay(o.run, handle, s, readAt);
  }

  /** The file the current process runs is the one that was measured, at an instant that is returned. */
  method CheckProcess(o: Observer, cfg: Config, l: Loaded) returns (ok: bool, ghost s: nat)
    requires Lawful(o.run, cfg.boot) && Fixes(cfg, l) && LoadedWithin(o.run, cfg, l, 0, o.now)
    modifies o
    ensures old(o.now) <= s <= o.now
    ensures ok && LoadedHolds(o.run, cfg, l, s) ==> AtomicProcess(o.run(s), cfg)
    ensures o.Quiet() && LoadedHolds(o.run, cfg, l, 0) ==> ok == AtomicProcess(o.run(0), cfg)
  {
    s := o.now;
    if cfg.current == None { return true, s; }
    var expected := l.first[if cfg.current.value.isLauncher then 2 else 1];
    var bytes;
    bytes, s := ReadSelf(o, cfg, cfg.current.value.handle, expected.evidence.identity);
    assert LoadedHolds(o.run, cfg, l, s) ==> Holds(o.run, cfg, expected, s);
    assert LoadedHolds(o.run, cfg, l, 0) ==> Holds(o.run, cfg, expected, 0);
    if bytes == None || Sha256(bytes.value) != Sha256(expected.evidence.bytes) { return false, s; }
    ok := Recheck(o, cfg, expected, s);
  }

  lemma LoadedWidens(run: Run, cfg: Config, l: Loaded, lo: nat, hi: nat, later: nat)
    requires LoadedWithin(run, cfg, l, lo, hi) && hi <= later
    ensures LoadedWithin(run, cfg, l, 0, later)
  {
  }

  lemma QuietReadingsHold(o: Observer, cfg: Config, rs: seq<Reading>, lo: nat, hi: nat)
    requires o.Quiet() && AllTaken(o.run, cfg, rs, lo, hi)
    ensures AllHold(o.run, cfg, rs, 0)
  {
    forall i | 0 <= i < |rs| ensures Holds(o.run, cfg, rs[i], 0) {
      assert o.run(rs[i].first) == o.run(0);
    }
  }

  lemma QuietLoadedHolds(o: Observer, cfg: Config, l: Loaded, lo: nat, hi: nat)
    requires LoadedWithin(o.run, cfg, l, lo, hi)
    ensures o.Quiet() ==> LoadedHolds(o.run, cfg, l, 0)
  {
    if o.Quiet() {
      QuietReadingsHold(o, cfg, l.head, lo, hi);
      QuietReadingsHold(o, cfg, l.first, lo, hi);
      QuietReadingsHold(o, cfg, l.last, lo, hi);
    }
  }

  lemma AgainstSettles(run: Run, cfg: Config, receipt: Receipt, l: Loaded, s: nat)
    requires Fixes(cfg, l) && ValidReceipt(receipt, l.binding)
    ensures LoadedHolds(run, cfg, l, s) && AtomicProcess(run(s), cfg) ==>
              AtomicAgainst(run(s), cfg, receipt) == Some(l.binding)
  {
    if LoadedHolds(run, cfg, l, s) { BindingSettles(run, cfg, l, s); }
  }

  /** Everything after the receipt has been read; the ghost result is the instant of the snapshot. */
  method VerifyAgainst(o: Observer, cfg: Config, receipt: Receipt) returns (l: Option<Loaded>, ghost s: nat)
    requires Lawful(o.run, cfg.boot) && cfg.Valid()
    modifies o
    ensures old(o.now) <= s <= o.now
    ensures l.Some? ==>
              && LoadedWithin(o.run, cfg, l.value, 0, s)
              && (LoadedHolds(o.run, cfg, l.value, s) ==> AtomicAgainst(o.run(s), cfg, receipt) == Some(l.value.binding))
    ensures o.Quiet() ==> AtomicAgainst(o.run(0), cfg, receipt) == if l.Some? then Some(l.value.binding) else None
  {
    hide Fixes, LoadedWithin, LoadedHolds, ValidReceipt, AtomicBinding, AtomicProcess, Lawful, o.Quiet;
    l := LoadBinding(o, cfg);
    s := o.now;
    if l == None || !ValidReceipt(receipt, l.value.binding) { return None, s; }
    QuietLoadedHolds(o, cfg, l.value, old(o.now), o.now);
    LoadedWidens(o.run, cfg, l.value, old(o.now), s, s);
    var runs;
    ghost var loadedAt := s;
    runs, s := CheckProcess(o, cfg, l.value);
    if !runs { return None, s; }
    LoadedWidens(o.run, cfg, l.value, 0, loadedAt, s);
    AgainstSettles(o.run, cfg, receipt, l.value, s);
  }

  /**
    The verification as the program runs it. Whatever other processes do between its calls,
    success means that one instant existed at which the whole check, done on that one state,
    gives the same answer; and with nothing failing and nothing changing it succeeds exactly
    when that check does.
  */
  method VerifyActivation(o: Observer, cfg: Config) returns (r: Option<Binding>)
    requires Lawful(o.run, cfg.boot) && cfg.Valid()
    modifies o
    ensures r.Some? ==> exists s | old(o.now) <= s <= o.now :: AtomicVerify(o.run(s), cfg) == r
    ensures o.Quiet() ==> r == AtomicVerify(o.run(0), cfg)
  {
    var receipt := Take(o, cfg, cfg.receipt, ReadOnlyData, RECEIPT_MAX_BYTES);
    if receipt == None { return None; }
    var decoded := cfg.decodeReceipt(receipt.value.evidence.bytes);
    if decoded == None { return None; }
    var l; ghost var s;
    l, s := VerifyAgainst(o, cfg, decoded.value);
    if l == None { return None; }
    var same := Recheck(o, cfg, receipt.value, s);
    if !same { return None; }
    same := RecheckLoaded(o, cfg, l.value, s);
    if !same { return None; }
    r := Some(l.value.binding);
    assert AtomicVerify(o.run(s), cfg) == r;
  }
}
