/**
  Activation renewal across crashes and reboots.

  Every file-system call is a step at which the program may go on, see the call fail, or
  stop for good; so whatever a method promises on every return it promises at every crash
  point. The artifacts may be different at every step. Nothing but this program writes the
  receipt, the challenge and the markers, which are in directories only it can enter.
*/
module RenewalProtocol {
  import opened Common
  import opened ActivationSnapshot

  datatype Signal = Proceed | Fault | PowerLoss

  datatype Failure = LockUnavailable | NotInvalidated | Refused

  datatype Outcome<+T> = Done(value: T) | Failed(failure: Failure) | Crashed

  /** The measured files; `None` when they do not pass measurement. */
  datatype Artifacts = Artifacts(manifest: Digest, image: Digest, bot: Digest, launcher: Digest, runtime: Digest)

  datatype Measurement = Measurement(boot: nat, artifacts: Artifacts)

  datatype StoredReceipt = StoredReceipt(measured: Measurement, canaries: map<string, bool>)

  datatype Challenge = Challenge(boot: nat, nonce: nat, validated: Option<nat>, artifacts: Artifacts)

  datatype Stored<+T> = Whole(content: T) | Part

  /** The passing of time: the signal of every step, and the artifacts at every step. */
  class Clock {
    const signals: nat -> Signal
    const artifacts: nat -> Option<Artifacts>
    const nonces: nat -> nat
    var now: nat
    /** How many canaries have passed. */
    var passed: nat

    constructor (signals: nat -> Signal, artifacts: nat -> Option<Artifacts>, nonces: nat -> nat)
      ensures this.signals == signals && this.artifacts == artifacts && this.nonces == nonces && now == 0 && passed == 0
    {
      this.signals, this.artifacts, this.nonces := signals, artifacts, nonces;
      now, passed := 0, 0;
    }

    /** From a step on no call fails and nothing crashes. */
    ghost predicate Faultless(from: nat) {
      forall i | from <= i :: signals(i) == Proceed
    }

    /** The same, and the artifacts stay what they are. */
    ghost predicate Smooth(a: Artifacts, from: nat) {
      Faultless(from) && forall i | from <= i :: artifacts(i) == Some(a)
    }

    ghost predicate Calm(lo: nat, hi: nat) {
      forall i | lo <= i < hi :: signals(i) == Proceed
    }

    ghost predicate FaultBetween(lo: nat, hi: nat) {
      exists i | lo <= i < hi :: signals(i) == Fault
    }

    /** The last step was the end. */
    ghost predicate Stopped(since: nat)
      reads this`now
    {
      since < now && signals(now - 1) == PowerLoss
    }

    method Step() returns (s: Signal)
      modifies this`now
      ensures now == old(now) + 1 && s == signals(old(now))
    {
      s := signals(now);
      now := now + 1;
    }

    /** Several calls in a row with nothing between them that is kept. */
    method Steps(n: nat) returns (s: Signal)
      modifies this`now
      ensures old(now) <= now <= old(now) + n
      ensures s == Proceed <==> Calm(old(now), old(now) + n)
      ensures s == Proceed ==> now == old(now) + n
      ensures s != Proceed ==> old(now) < now && signals(now - 1) == s && Calm(old(now), now - 1)
    {
      s := Proceed;
      for i := 0 to n
        invariant s == Proceed && now == old(now) + i && Calm(old(now), now)
      {
        s := Step();
        if s != Proceed { return; }
      }
    }

    /** Measuring takes many calls and answers for one instant among them. */
    method Measure(boot: nat) returns (r: Outcome<Measurement>)
      modifies this`now
      ensures old(now) <= now
      ensures r.Crashed? ==> Stopped(old(now))
      ensures r.Done? ==> r.value.boot == boot && MeasuredBetween(r.value.artifacts, old(now), now)
      ensures r.Done? ==> Calm(old(now), old(now) + MEASURING) && artifacts(old(now) + 9) == Some(r.value.artifacts)
      ensures r.Failed? ==> r.failure == Refused
      ensures Calm(old(now), old(now) + MEASURING) ==>
                && now == old(now) + MEASURING
                && r == var seen := artifacts(old(now) + 9); if seen.Some? then Done(Measurement(boot, seen.value)) else Failed(Refused)
      ensures forall a | Smooth(a, old(now)) :: r == Done(Measurement(boot, a))
    {
      var s := Steps(9);
      if s != Proceed { return Halt(s); }
      var seen := artifacts(now);
      ghost var at := now;
      s := Steps(8);
      assert at <= now;
      if s != Proceed || seen == None { return Halt(s); }
      r := Done(Measurement(boot, seen.value));
      assert artifacts(at) == Some(r.value.artifacts);
    }

    /** One canary; a fault is a canary that does not pass. */
    method Canary() returns (s: Signal)
      modifies this
      ensures now == old(now) + 1 && passed == old(passed) + if s == Proceed then 1 else 0
      ensures s == signals(old(now))
    {
      s := Step();
      if s == Proceed { passed := passed + 1; }
    }

    /** The runtime boundary, the clean-up on a timeout, on the launcher's crash and on the exit of the bot. */
    method FourCanaries() returns (s: Signal)
      modifies this
      ensures old(now) < now && s == signals(now - 1) && (s == Proceed ==> passed == old(passed) + 4)
      ensures Faultless(old(now)) ==> s == Proceed
    {
      s := Canary();
      if s == Proceed { s := Canary(); }
      if s == Proceed { s := Canary(); }
      if s == Proceed { s := Canary(); }
    }

    /** One of the two calls that take the lock fails. */
    ghost predicate LockFault(at: nat) {
      signals(at) == Fault || (signals(at) == Proceed && signals(at + 1) == Fault)
    }

    /** Two measurements in a row find `b`, and nothing fails until it has been written down in place. */
    ghost predicate WrittenDown(at: nat, b: Artifacts) {
      && Calm(at, at + 2 * MEASURING + DRAFTING)
      && artifacts(at + 9) == artifacts(at + MEASURING + 9) == Some(b)
    }

    /** The first measurement of a commit finds `a`; the next two find `b`, which is written down. */
    ghost predicate Replaced(at: nat, a: Artifacts, b: Artifacts) {
      Calm(at, at + MEASURING) && artifacts(at + 9) == Some(a) && WrittenDown(at + MEASURING, b)
    }

    /** The same, and with the receipt just renamed into place the program is stopped. */
    ghost predicate CutOff(at: nat, a: Artifacts, b: Artifacts) {
      Replaced(at, a, b) && signals(at + COMMITTING) == PowerLoss
    }

    ghost predicate MeasuredBetween(a: Artifacts, lo: nat, hi: nat) {
      exists i | lo <= i <= hi :: artifacts(i) == Some(a)
    }
  }

  /** The calls of one measurement; the tenth is the instant it answers for. */
  const MEASURING := 17

  function Halt<T>(s: Signal): (r: Outcome<T>)
    ensures !r.Done? && (r.Crashed? <==> s.PowerLoss?) && (r.Failed? ==> r.failure == Refused)
  {
    if s.PowerLoss? then Crashed else Failed(Refused)
  }

  /** The calls of writing a temporary file and renaming it. */
  const DRAFTING := 7

  /** The calls of a commit up to the rename of the receipt. */
  const COMMITTING := 3 * MEASURING + DRAFTING

  /** One file that is only ever replaced by renaming a finished temporary file over it. */
  class Slot<T(==)> {
    /** What the path shows. */
    var shown: Option<Stored<T>>
    /** What the path would show after a power failure that loses all unsynchronised directory changes. */
    var durable: Option<Stored<T>>
    var temporary: Option<Stored<T>>
    /** The steps every call of `Remove` has taken. */
    ghost var removals: seq<Attempt>

    constructor ()
      ensures shown == None && durable == None && temporary == None && removals == []
    {
      shown, durable, temporary, removals := None, None, None, [];
    }

    /** The file was to be removed, and the last attempt to do so met a fault. */
    ghost predicate RemovalFailed(k: Clock, since: nat)
      reads this
    {
      since < |removals| && var last := removals[|removals| - 1]; k.FaultBetween(last.from, last.to)
    }

    /** Nothing is left half way: the path shows the old content or the whole new one. */
    twostate predicate KeptOr(value: T)
      reads this
    {
      && (shown == old(shown) || shown == Some(Whole(value)))
      && (durable == old(durable) || (durable == Some(Whole(value)) && shown == durable))
    }

    /** Creates, writes, synchronises and checks the temporary file, then renames it. */
    method DraftAndRename(k: Clock, value: T) returns (s: Signal)
      modifies this`shown, this`temporary, k`now
      ensures old(k.now) <= k.now
      ensures s == Proceed ==> shown == Some(Whole(value)) && temporary == None
      ensures s != Proceed ==> shown == old(shown)
      ensures s == Proceed <==> k.Calm(old(k.now), old(k.now) + DRAFTING)
      ensures s == Proceed ==> k.now == old(k.now) + DRAFTING
      ensures s == PowerLoss ==> k.Stopped(old(k.now))
    {
      s := k.Step();
      if s != Proceed { return; }
      temporary := Some(Part);
      s := k.Step();
      if s != Proceed { return; }
      temporary := Some(Whole(value));
      s := k.Steps(4);
      if s != Proceed { return; }
      s := k.Step();
      if s != Proceed { return; }
      shown, temporary := temporary, None;
    }

    method DropTemporary(k: Clock) returns (crashed: bool)
      modifies this`temporary, k`now
      ensures old(k.now) <= k.now
      ensures old(temporary) == None ==> temporary == None && !crashed
      ensures crashed ==> k.Stopped(old(k.now))
    {
      if temporary == None { return false; }
      var s := k.Step();
      if s == Proceed { temporary := None; }
      crashed := s == PowerLoss;
    }

    /** The receipt writer: the directory is synchronised first, then the installed file is looked at. */
    method Install(k: Clock, value: T) returns (r: Outcome<()>)
      modifies this`shown, this`durable, this`temporary, k`now
      ensures old(k.now) <= k.now
      ensures r.Crashed? ==> k.Stopped(old(k.now))
      ensures KeptOr(value)
      ensures shown == if k.Calm(old(k.now), old(k.now) + DRAFTING) then Some(Whole(value)) else old(shown)
      ensures r.Done? ==> k.Calm(old(k.now), old(k.now) + DRAFTING)
      ensures r.Done? ==> shown == Some(Whole(value)) && temporary == None && durable == shown
      ensures r.Failed? ==> r.failure == Refused
      ensures k.Faultless(old(k.now)) ==> r.Done?
      ensures k.Calm(old(k.now), old(k.now) + DRAFTING) && k.signals(old(k.now) + DRAFTING) == PowerLoss ==>
                r.Crashed? && k.now == old(k.now) + DRAFTING + 1
    {
      var s := DraftAndRename(k, value);
      if s == Proceed {
        s := k.Step();
        if s == Proceed {
          durable := shown;
          s := k.Step();
        }
      }
      if s == PowerLoss { return Crashed; }
      var crashed := DropTemporary(k);
      r := if crashed then Crashed else if s == Proceed then Done(()) else Failed(Refused);
    }

    /** The private-file writer: the written file is read back first, then the directory is synchronised. */
    method InstallPrivate(k: Clock, value: T) returns (r: Outcome<()>)
      modifies this`shown, this`durable, this`temporary, k`now
      ensures old(k.now) <= k.now
      ensures r.Crashed? ==> k.Stopped(old(k.now))
      ensures KeptOr(value)
      ensures r.Done? ==> shown == Some(Whole(value)) && temporary == None && durable == shown
      ensures r.Failed? ==> r.failure == Refused
      ensures k.Faultless(old(k.now)) ==> r.Done?
    {
      var s := k.Steps(2);
      if s != Proceed { return Halt(s); }
      s := DraftAndRename(k, value);
      if s == Proceed { s := k.Steps(4); }
      if s == Proceed && shown != Some(Whole(value)) { s := Fault; }
      if s == Proceed {
        s := k.Step();
        if s == Proceed { durable := shown; }
      }
      if s == PowerLoss { return Crashed; }
      var crashed := DropTemporary(k);
      r := if crashed then Crashed else if s == Proceed then Done(()) else Failed(Refused);
    }

    method Read(k: Clock) returns (r: Outcome<Option<T>>)
      modifies k`now
      ensures old(k.now) <= k.now
      ensures r.Crashed? ==> k.Stopped(old(k.now))
      ensures r.Done? ==> (if r.value.Some? then shown == Some(Whole(r.value.value)) else shown == None)
      ensures r.Failed? ==> r.failure == Refused
      ensures k.Faultless(old(k.now)) && shown != Some(Part) ==> r.Done?
    {
      var s := k.Steps(7);
      if s != Proceed { return Halt(s); }
      if shown == None { return Done(None); }
      r := if shown.value.Whole? then Done(Some(shown.value.content)) else Failed(Refused);
    }

    /** Removes the file; the removal lasts once the directory has been synchronised. */
    method Remove(k: Clock) returns (r: Outcome<()>)
      modifies this`shown, this`durable, this`removals, k`now
      ensures old(k.now) <= k.now && removals == old(removals) + [Attempt(old(k.now), k.now)]
      ensures r.Crashed? ==> k.Stopped(old(k.now))
      ensures shown == None || shown == old(shown)
      ensures durable == None || durable == old(durable)
      ensures r.Done? ==> shown == None && durable == None
      ensures r.Failed? ==> r.failure == Refused
      ensures r.Done? <==> k.Calm(old(k.now), k.now)
      ensures r.Failed? <==> k.FaultBetween(old(k.now), k.now)
    {
      r := Unlink(k);
      removals := removals + [Attempt(old(k.now), k.now)];
    }

    method Unlink(k: Clock) returns (r: Outcome<()>)
      modifies this`shown, this`durable, k`now
      ensures old(k.now) <= k.now
      ensures r.Crashed? ==> k.Stopped(old(k.now))
      ensures shown == None || shown == old(shown)
      ensures durable == None || durable == old(durable)
      ensures r.Done? ==> shown == None && durable == None
      ensures r.Failed? ==> r.failure == Refused
      ensures r.Done? <==> k.Calm(old(k.now), k.now)
      ensures r.Failed? <==> k.FaultBetween(old(k.now), k.now)
    {
      var s := k.Steps(2);
      if s != Proceed { return Halt(s); }
      if shown.Some? {
        s := k.Step();
        if s != Proceed { return Halt(s); }
        shown := None;
      }
      s := k.Step();
      if s != Proceed { return Halt(s); }
      durable := None;
      r := Done(());
    }
  }

  // ----- what is on the disk -----

  /** Read as the source reads it: a validated boot other than its own makes a challenge unusable. */
  predicate Usable(c: Challenge) {
    c.validated.Some? ==> c.validated.value == c.boot
  }

  datatype ChallengeState = Absent | PendingCurrentBoot | ValidatedCurrentBoot | CrossedBootBoundary

  function Classify(boot: nat, c: Option<Challenge>, expected: Artifacts): Option<ChallengeState> {
    if c == None then Some(Absent)
    else if c.value.artifacts != expected || !Usable(c.value) then None
    else if c.value.boot != boot then Some(CrossedBootBoundary)
    else if c.value.validated.Some? then Some(ValidatedCurrentBoot)
    else Some(PendingCurrentBoot)
  }

  /** A challenge for these artifacts was written in a boot before `boot`. */
  ghost predicate CrossedBoot(log: seq<Challenge>, boot: nat, artifacts: Artifacts) {
    exists j | 0 <= j < |log| :: log[j].boot < boot && log[j].artifacts == artifacts
  }

  /** Every challenge ever written: validated only for its own boot, and only after an earlier one. */
  ghost predicate Justified(log: seq<Challenge>, i: nat)
    requires i < |log|
  {
    log[i].validated.Some? ==> Usable(log[i]) && CrossedBoot(log[..i], log[i].boot, log[i].artifacts)
  }

  ghost predicate AllJustified(log: seq<Challenge>, boot: nat) {
    forall i | 0 <= i < |log| :: log[i].boot <= boot && Justified(log, i)
  }

  lemma CrossedStays(log: seq<Challenge>, more: seq<Challenge>, boot: nat, artifacts: Artifacts)
    requires log <= more && CrossedBoot(log, boot, artifacts)
    ensures CrossedBoot(more, boot, artifacts)
  {
    var j :| 0 <= j < |log| && log[j].boot < boot && log[j].artifacts == artifacts;
    assert more[j] == log[j];
  }

  lemma JustifiedSnoc(log: seq<Challenge>, boot: nat, c: Challenge)
    requires AllJustified(log, boot) && c.boot == boot
    requires c.validated.Some? ==> Usable(c) && CrossedBoot(log, boot, c.artifacts)
    ensures AllJustified(log + [c], boot)
  {
    var more := log + [c];
    forall i | 0 <= i < |more| ensures more[i].boot <= boot && Justified(more, i) {
      if i < |log| {
        assert more[..i] == log[..i] && Justified(log, i);
      } else {
        assert more[..i] == log;
      }
    }
  }

  /** Behind any validated challenge, and any crossing, stands one that was pending when it was written. */
  lemma {:induction false} CrossedFromPending(log: seq<Challenge>, top: nat, boot: nat, artifacts: Artifacts)
    requires AllJustified(log, top) && CrossedBoot(log, boot, artifacts)
    ensures exists j | 0 <= j < |log| :: log[j].boot < boot && log[j].artifacts == artifacts && log[j].validated == None
    decreases |log|
  {
    var j :| 0 <= j < |log| && log[j].boot < boot && log[j].artifacts == artifacts;
    if log[j].validated.Some? {
      assert Justified(log, j);
      var shorter := log[..j];
      forall i | 0 <= i < |shorter| ensures shorter[i].boot <= top && Justified(shorter, i) {
        assert Justified(log, i) && shorter[..i] == log[..i];
      }
      CrossedFromPending(shorter, top, log[j].boot, artifacts);
      var i :| 0 <= i < |shorter| && shorter[i].boot < log[j].boot && shorter[i].artifacts == artifacts && shorter[i].validated == None;
      assert log[i] == shorter[i];
    }
  }

  predicate CompleteReceipt(r: StoredReceipt) {
    ValidCanaries(r.canaries)
  }

  datatype Status = Ready | RebootRequired

  datatype Preparation = Preparation(status: Status, writes: nat, measured: Measurement)

  /** No receipt, or a complete one of this boot. */
  ghost predicate WholeReceipt(s: Option<Stored<StoredReceipt>>, boot: nat) {
    s.Some? ==> s.value.Whole? && CompleteReceipt(s.value.content) && s.value.content.measured.boot == boot
  }

  /** What receipts said that a commit left behind although it was for other artifacts, with the step that commit began at. */
  type Strays = map<Measurement, nat>

  /** In each of these commits the second and the third measurement agreed on artifacts that the first had not found. */
  ghost predicate EachReplaced(k: Clock, strays: Strays) {
    forall m | m in strays :: exists a | a != m.artifacts :: k.Replaced(strays[m], a, m.artifacts)
  }

  /** What is new comes from commits that began no earlier than this step. */
  ghost predicate StraysGrow(before: Strays, after: Strays, since: nat) {
    && (forall m | m in before :: m in after)
    && forall m | m in after :: (m in before && after[m] == before[m]) || since <= after[m]
  }

  lemma StraysThen(a: Strays, b: Strays, c: Strays, since: nat, later: nat)
    requires StraysGrow(a, b, since) && StraysGrow(b, c, later) && since <= later
    ensures StraysGrow(a, c, since)
  {
  }

  lemma NoStray(strays: Strays, since: nat)
    ensures StraysGrow(strays, strays, since)
  {
  }

  lemma OneStray(k: Clock, strays: Strays, a: Artifacts, m: Measurement, from: nat)
    requires EachReplaced(k, strays) && k.Replaced(from, a, m.artifacts) && a != m.artifacts
    ensures EachReplaced(k, strays[m := from]) && StraysGrow(strays, strays[m := from], from)
  {
  }

  /** The receipt is for artifacts whose challenge crossed a reboot, unless it is a stray one. */
  ghost predicate Accounted(s: Option<Stored<StoredReceipt>>, log: seq<Challenge>, boot: nat, strays: Strays) {
    s.Some? && s.value.Whole? ==>
      var m := s.value.content.measured; CrossedBoot(log, boot, m.artifacts) || m in strays
  }

  ghost predicate Traced(s: Option<Stored<Challenge>>, log: seq<Challenge>) {
    s.Some? ==> s.value.Whole? && s.value.content in log
  }

  /** The host: the receipt and the markers live in /run, the challenge survives a reboot. */
  class Machine {
    const k: Clock
    const receipts: Slot<StoredReceipt>
    const challenges: Slot<Challenge>
    var boot: nat
    /** Marker files of the current boot; whether each has its whole contents. */
    var markers: map<nat, bool>
    /** Every challenge ever written. */
    ghost var log: seq<Challenge>
    ghost var strays: Strays

    constructor (k: Clock)
      ensures Sound() && fresh(receipts) && fresh(challenges) && this.k == k && log == [] && strays == map[]
      ensures boot == 0 && markers == map[] && receipts.shown == None && challenges.shown == None
    {
      this.k := k;
      receipts := new Slot();
      challenges := new Slot();
      boot, markers, log, strays := 0, map[], [], map[];
    }

    ghost predicate Sound()
      reads this, receipts, challenges
    {
      && WholeReceipt(receipts.shown, boot) && Traced(challenges.shown, log) && Traced(challenges.durable, log)
      && AllJustified(log, boot) && Accounted(receipts.shown, log, boot, strays) && EachReplaced(k, strays)
    }

    /** Random names do not collide with what is there. */
    ghost predicate FreshNonces()
      reads this
    {
      forall i :: k.nonces(i) !in markers
    }

    /** The marker first, then the challenge that names it; a failure takes the marker away again. */
    method WriteChallenge(validated: Option<nat>, artifacts: Artifacts) returns (r: Outcome<()>)
      requires Sound()
      requires validated.Some? ==> validated.value == boot && CrossedBoot(log, boot, artifacts)
      modifies this`markers, this`log, k`now, challenges
      ensures Sound() && old(k.now) <= k.now
      ensures r.Crashed? ==> k.Stopped(old(k.now))
      ensures (log == old(log) && challenges.shown == old(challenges.shown)) || Wrote(old(log), validated, artifacts)
      ensures r.Done? ==> Wrote(old(log), validated, artifacts) && MarkerStands(log[|log| - 1].nonce)
      ensures r.Failed? ==> r.failure == Refused
      ensures k.Smooth(artifacts, old(k.now)) && old(FreshNonces()) ==> r.Done?
    {
      hide AllJustified, Accounted, WholeReceipt;
      var nonce := k.nonces(k.now);
      var made := CreateMarker(nonce);
      if !made.Done? { return made; }
      var c := Challenge(boot, nonce, validated, artifacts);
      r := challenges.InstallPrivate(k, c);
      if challenges.shown == Some(Whole(c)) {
        Record(c);
      }
      if r.Failed? {
        var s := k.Step();
        if s == PowerLoss { return Crashed; }
        if s == Proceed { markers := markers - {nonce}; }
      }
    }

    ghost method Record(c: Challenge)
      requires AllJustified(log, boot) && Accounted(receipts.shown, log, boot, strays)
      requires c.boot == boot && (c.validated.Some? ==> Usable(c) && CrossedBoot(log, boot, c.artifacts))
      modifies this`log
      ensures log == old(log) + [c] && AllJustified(log, boot) && Accounted(receipts.shown, log, boot, strays)
    {
      JustifiedSnoc(log, boot, c);
      if receipts.shown.Some? && receipts.shown.value.Whole? {
        var m := receipts.shown.value.content.measured;
        if CrossedBoot(log, boot, m.artifacts) { CrossedStays(log, log + [c], boot, m.artifacts); }
      }
      log := log + [c];
    }

    ghost predicate MarkerStands(nonce: nat)
      reads this
    {
      nonce in markers && markers[nonce]
    }

    /** Exactly one challenge has been written, and the path shows it. */
    ghost predicate Wrote(before: seq<Challenge>, validated: Option<nat>, artifacts: Artifacts)
      reads this, challenges
    {
      && |log| == |before| + 1 && before == log[..|before|]
      && var c := log[|before|];
         c.boot == boot && c.validated == validated && c.artifacts == artifacts && challenges.shown == Some(Whole(c))
    }

    method CreateMarker(nonce: nat) returns (r: Outcome<()>)
      modifies this`markers, k`now
      ensures old(k.now) <= k.now
      ensures r.Crashed? ==> k.Stopped(old(k.now))
      ensures r.Done? ==> MarkerStands(nonce)
      ensures r.Failed? ==> r.failure == Refused
      ensures k.Faultless(old(k.now)) && nonce !in old(markers) ==> r.Done?
    {
      var s := k.Steps(2);
      if s != Proceed { return Halt(s); }
      if nonce in markers { return Failed(Refused); }
      markers := markers[nonce := false];
      s := k.Step();
      if s == Proceed {
        markers := markers[nonce := true];
        s := k.Steps(2);
      }
      if s == PowerLoss { return Crashed; }
      if s == Fault {
        s := k.Step();
        if s == PowerLoss { return Crashed; }
        if s == Proceed { markers := markers - {nonce}; }
        return Failed(Refused);
      }
      r := Done(());
    }

    ghost predicate ShowsUsable()
      reads this, challenges
    {
      challenges.shown.Some? && challenges.shown.value.Whole? && Usable(challenges.shown.value.content)
    }

    method ReadChallenge() returns (r: Outcome<Option<Challenge>>)
      modifies k`now
      ensures old(k.now) <= k.now
      ensures r.Crashed? ==> k.Stopped(old(k.now))
      ensures r.Done? && r.value == None ==> challenges.shown == None
      ensures r.Done? && r.value.Some? ==> challenges.shown == Some(Whole(r.value.value)) && Usable(r.value.value)
      ensures r.Failed? ==> r.failure == Refused
      ensures k.Faultless(old(k.now)) && challenges.shown == None ==> r.Done?
      ensures k.Faultless(old(k.now)) && ShowsUsable() ==> r.Done?
    {
      r := challenges.Read(k);
      if r.Done? && r.value.Some? && !Usable(r.value.value) { r := Failed(Refused); }
    }

    /** The file of the marker, read back whole. */
    method CheckMarker(nonce: nat) returns (r: Outcome<()>)
      modifies k`now
      ensures old(k.now) <= k.now
      ensures r.Crashed? ==> k.Stopped(old(k.now))
      ensures r.Done? ==> MarkerStands(nonce)
      ensures r.Failed? ==> r.failure == Refused
      ensures k.Faultless(old(k.now)) && MarkerStands(nonce) ==> r.Done?
    {
      var s := k.Steps(7);
      if s != Proceed { return Halt(s); }
      r := if nonce in markers && markers[nonce] then Done(()) else Failed(Refused);
    }

    /** The reboot check of a renewal. */
    method VerifyChallenge(artifacts: Artifacts) returns (r: Outcome<()>)
      requires Sound()
      modifies this`markers, this`log, k`now, challenges
      ensures Sound() && old(k.now) <= k.now && old(log) <= log
      ensures r.Crashed? ==> k.Stopped(old(k.now))
      ensures r.Done? ==> old(Passable(artifacts)) && CrossedBoot(log, boot, artifacts) && ShowsValidated(artifacts)
      ensures r.Failed? ==> r.failure == Refused
      ensures k.Smooth(artifacts, old(k.now)) && old(FreshNonces()) && old(Passable(artifacts)) ==> r.Done?
    {
      hide EachReplaced, Accounted, WholeReceipt;
      var s := k.Steps(2);
      if s != Proceed { return Halt(s); }
      var read := ReadChallenge();
      if !read.Done? { return if read.Crashed? then Crashed else Failed(Refused); }
      if read.value == None {
        r := WriteChallenge(None, artifacts);
        if r.Done? { r := Failed(Refused); }
        return;
      }
      var c := read.value.value;
      if c.artifacts != artifacts { return Failed(Refused); }
      if c.boot == boot {
        if c.validated != Some(boot) { return Failed(Refused); }
        ValidatedCrossed(log, boot, c);
        r := CheckMarker(c.nonce);
        return;
      }
      s := k.Step();
      if s != Proceed { return Halt(s); }
      if c.nonce in markers { return Failed(Refused); }
      EarlierCrossed(log, boot, c);
      r := WriteChallenge(Some(boot), artifacts);
      if r.Done? { CrossedStays(old(log), log, boot, artifacts); }
    }

    ghost predicate ShowsValidated(artifacts: Artifacts)
      reads this, challenges
    {
      && challenges.shown.Some? && challenges.shown.value.Whole?
      && var c := challenges.shown.value.content;
         c.boot == boot && c.validated == Some(boot) && c.artifacts == artifacts && MarkerStands(c.nonce)
    }

    /** What a challenge must look like for the reboot check to pass. */
    ghost predicate Passable(artifacts: Artifacts)
      reads this, challenges
    {
      && challenges.shown.Some? && challenges.shown.value.Whole?
      && var c := challenges.shown.value.content;
         && c.artifacts == artifacts && Usable(c)
         && if c.boot == boot then c.validated == Some(boot) && MarkerStands(c.nonce) else c.nonce !in markers
    }

    /** The receipt at its path is complete and says what was measured at one instant of this call. */
    method VerifyReceipt() returns (r: Outcome<Measurement>)
      modifies k`now
      ensures old(k.now) <= k.now
      ensures r.Crashed? ==> k.Stopped(old(k.now))
      ensures r.Done? ==> ReceiptFor(r.value) && k.MeasuredBetween(r.value.artifacts, old(k.now), k.now)
      ensures r.Failed? ==> r.failure == Refused
      ensures forall a :: k.Smooth(a, old(k.now)) && ReceiptFor(Measurement(boot, a)) ==> r == Done(Measurement(boot, a))
    {
      var read := receipts.Read(k);
      if !read.Done? { return if read.Crashed? then Crashed else Failed(Refused); }
      if read.value == None { return Failed(Refused); }
      r := k.Measure(boot);
      if r.Done? && (!CompleteReceipt(read.value.value) || read.value.value.measured != r.value) { r := Failed(Refused); }
    }

    ghost predicate ReceiptFor(m: Measurement)
      reads this, receipts
    {
      && receipts.shown.Some? && receipts.shown.value.Whole? && CompleteReceipt(receipts.shown.value.content)
      && receipts.shown.value.content.measured == m && m.boot == boot
    }

    method TryCommit(expected: Measurement, canaries: map<string, bool>) returns (r: Outcome<Measurement>)
      requires WholeReceipt(receipts.shown, boot)
      modifies k`now, receipts`shown, receipts`durable, receipts`temporary
      ensures old(k.now) <= k.now && WholeReceipt(receipts.shown, boot)
      ensures r.Crashed? ==> k.Stopped(old(k.now))
      ensures forall b | k.Replaced(old(k.now), expected.artifacts, b) && expected.boot == boot && ValidCanaries(canaries) ::
                receipts.shown == Some(Whole(StoredReceipt(Measurement(boot, b), canaries)))
      ensures receipts.shown == old(receipts.shown) || InstalledFrom(expected, old(k.now))
      ensures r.Done? ==> r.value == expected && ReceiptFor(expected)
      ensures r.Failed? ==> r.failure == Refused
      ensures k.Smooth(expected.artifacts, old(k.now)) && expected.boot == boot && ValidCanaries(canaries) ==> r.Done?
      ensures forall b | k.CutOff(old(k.now), expected.artifacts, b) && expected.boot == boot && ValidCanaries(canaries) ::
                r.Crashed? && k.now == old(k.now) + COMMITTING + 1
    {
      hide ValidCanaries;
      var current := k.Measure(boot);
      if !current.Done? { return current; }
      if current.value != expected || !ValidCanaries(canaries) { return Failed(Refused); }
      var installed := BuildReceipt(canaries);
      if !installed.Done? { return if installed.Crashed? then Crashed else Failed(Refused); }
      r := VerifyReceipt();
      if r.Done? && r.value != expected { r := Failed(Refused); }
    }

    /** The receipt is built from a second measurement, and written when a third one agrees. */
    method BuildReceipt(canaries: map<string, bool>) returns (r: Outcome<()>)
      modifies k`now, receipts`shown, receipts`durable, receipts`temporary
      ensures old(k.now) <= k.now
      ensures r.Crashed? ==> k.Stopped(old(k.now))
      ensures forall b | k.WrittenDown(old(k.now), b) :: receipts.shown == Some(Whole(StoredReceipt(Measurement(boot, b), canaries)))
      ensures receipts.shown == old(receipts.shown) || ReceiptOf(canaries, old(k.now))
      ensures r.Done? ==> ReceiptOf(canaries, old(k.now))
      ensures r.Failed? ==> r.failure == Refused
      ensures forall a | k.Smooth(a, old(k.now)) ::
                r.Done? && receipts.shown == Some(Whole(StoredReceipt(Measurement(boot, a), canaries)))
      ensures forall b | k.WrittenDown(old(k.now), b) && k.signals(old(k.now) + 2 * MEASURING + DRAFTING) == PowerLoss ::
                r.Crashed? && k.now == old(k.now) + 2 * MEASURING + DRAFTING + 1
    {
      var built := k.Measure(boot);
      if !built.Done? { return if built.Crashed? then Crashed else Failed(Refused); }
      var again := k.Measure(boot);
      if !again.Done? { return if again.Crashed? then Crashed else Failed(Refused); }
      if built.value != again.value { return Failed(Refused); }
      r := receipts.Install(k, StoredReceipt(built.value, canaries));
    }

    /** The receipt is what two measurements from this step on have agreed on. */
    ghost predicate ReceiptOf(canaries: map<string, bool>, at: nat)
      reads this, receipts
    {
      && receipts.shown.Some? && receipts.shown.value.Whole? && receipts.shown.value.content.canaries == canaries
      && var m := receipts.shown.value.content.measured;
         m.boot == boot && k.WrittenDown(at, m.artifacts)
    }

    /** A receipt written by a commit begun at this step: for `expected`, or for what took its place after the first measurement. */
    ghost predicate InstalledFrom(expected: Measurement, at: nat)
      reads this, receipts
    {
      && receipts.shown.Some? && receipts.shown.value.Whole?
      && var m := receipts.shown.value.content.measured;
         m.boot == expected.boot == boot && k.Replaced(at, expected.artifacts, m.artifacts)
    }

    /**
      Commit; a failure leaves no receipt, or says that removing it failed. A receipt that a
      commit leaves behind is for what was expected, unless that was swapped meanwhile.
    */
    method Commit(expected: Measurement, canaries: map<string, bool>) returns (r: Outcome<Measurement>)
      requires WholeReceipt(receipts.shown, boot)
      modifies this`strays, k`now, receipts
      ensures old(k.now) <= k.now && WholeReceipt(receipts.shown, boot) && old(receipts.removals) <= receipts.removals
      ensures r.Crashed? ==> k.Stopped(old(k.now))
      ensures r.Done? ==> r.value == expected && ReceiptFor(expected)
      ensures r == Failed(Refused) ==> receipts.shown == None
      ensures r.Failed? && r != Failed(Refused) ==>
                r == Failed(NotInvalidated) && receipts.RemovalFailed(k, |old(receipts.removals)|)
      ensures receipts.shown == None || receipts.shown == old(receipts.shown) || ReceiptFor(expected)
              || LeftStray(old(strays), expected, old(k.now))
      ensures strays == old(strays) || (LeftStray(old(strays), expected, old(k.now)) && r in {Crashed, Failed(NotInvalidated)})
      ensures k.Smooth(expected.artifacts, old(k.now)) && expected.boot == boot && ValidCanaries(canaries) ==> r.Done?
      ensures forall b | k.CutOff(old(k.now), expected.artifacts, b) && expected.boot == boot && ValidCanaries(canaries) ::
                r.Crashed? && ReceiptFor(Measurement(boot, b)) && k.now == old(k.now) + COMMITTING + 1
    {
      r := TryCommit(expected, canaries);
      if r.Failed? { r := Abandon(); }
      if receipts.shown != old(receipts.shown) && receipts.shown.Some? {
        ghost var m := receipts.shown.value.content.measured;
        if m != expected { strays := strays[m := old(k.now)]; }
      }
    }

    /** One more stray receipt stands, for artifacts that took the place of the expected ones after the first measurement. */
    ghost predicate LeftStray(before: Strays, expected: Measurement, at: nat)
      reads this, receipts
    {
      && receipts.shown.Some? && receipts.shown.value.Whole?
      && var m := receipts.shown.value.content.measured;
         && strays == before[m := at] && ReceiptFor(m)
         && m.artifacts != expected.artifacts && k.Replaced(at, expected.artifacts, m.artifacts)
    }

    /** Takes the receipt away after a failure. */
    method Abandon() returns (r: Outcome<Measurement>)
      modifies k`now, receipts`shown, receipts`durable, receipts`removals
      ensures old(k.now) <= k.now && !r.Done? && old(receipts.removals) < receipts.removals
      ensures r.Crashed? ==> k.Stopped(old(k.now))
      ensures receipts.shown == None || receipts.shown == old(receipts.shown)
      ensures r == Failed(Refused) ==> receipts.shown == None
      ensures r.Failed? && r != Failed(Refused) ==>
                r == Failed(NotInvalidated) && receipts.RemovalFailed(k, |old(receipts.removals)|)
      ensures k.Calm(old(k.now), k.now) ==> r == Failed(Refused)
    {
      var removed := receipts.Remove(k);
      r := if removed.Crashed? then Crashed else Failed(if removed.Done? then Refused else NotInvalidated);
    }

    /** The canaries between the reboot check and the commit, and the commit. */
    method Canaries(candidate: Measurement) returns (r: Outcome<Measurement>)
      requires Sound() && candidate.boot == boot
      modifies this`markers, this`log, this`strays, k, receipts, challenges
      ensures Sound() && old(k.now) <= k.now && old(log) <= log && old(receipts.removals) <= receipts.removals
      ensures r.Crashed? ==> k.Stopped(old(k.now))
      ensures StraysGrow(old(strays), strays, old(k.now))
      ensures r.Done? ==>
                && old(Passable(candidate.artifacts))
                && r.value == candidate && ReceiptFor(candidate) && ShowsValidated(candidate.artifacts)
                && CrossedBoot(log, boot, candidate.artifacts) && k.passed == old(k.passed) + 4
      ensures r.Failed? ==> r.failure == Refused || (r.failure == NotInvalidated && receipts.RemovalFailed(k, |old(receipts.removals)|))
      ensures k.Smooth(candidate.artifacts, old(k.now)) && old(FreshNonces()) && old(Passable(candidate.artifacts)) ==> r.Done?
    {
      hide Passable, ShowsValidated, AllJustified, Traced, FreshNonces, EachReplaced, StraysGrow, Clock.Replaced, Clock.MeasuredBetween;
      NoStray(strays, k.now);
      var checked := VerifyChallenge(candidate.artifacts);
      if !checked.Done? { return if checked.Crashed? then Crashed else Failed(Refused); }
      var s := k.FourCanaries();
      if s != Proceed { return Halt(s); }
      var canaries := map name | name in REQUIRED_CANARIES :: true;
      ValidCanariesExactly(canaries);
      ghost var began := k.now;
      r := Commit(candidate, canaries);
      if strays != old(strays) {
        OneStray(k, old(strays), candidate.artifacts, receipts.shown.value.content.measured, began);
        StraysThen(old(strays), old(strays), strays, old(k.now), began);
      }
    }

    /**
      Renewal. Success means a receipt for what was measured first, in a boot after one in
      which a challenge for the same artifacts was written. Whatever makes it fail, no receipt
      is left, unless one of the two calls for the lock fails or a call of the last removal.
    */
    method Renew() returns (r: Outcome<Measurement>)
      requires Sound()
      modifies this`markers, this`log, this`strays, k, receipts, challenges
      ensures Sound() && old(k.now) <= k.now && old(log) <= log
      ensures r.Crashed? ==> k.Stopped(old(k.now))
      ensures StraysGrow(old(strays), strays, old(k.now))
      ensures r.Done? ==>
                && old(Passable(r.value.artifacts)) && ReceiptFor(r.value) && ShowsValidated(r.value.artifacts)
                && CrossedBoot(log, boot, r.value.artifacts) && k.passed == old(k.passed) + 4
      ensures r == Failed(LockUnavailable) <==> k.LockFault(old(k.now))
      ensures old(k.now) < k.now
      ensures r.Failed? ==>
                match r.failure
                case LockUnavailable => receipts.shown == old(receipts.shown) && challenges.shown == old(challenges.shown) && log == old(log)
                case NotInvalidated => receipts.RemovalFailed(k, |old(receipts.removals)|)
                case Refused => receipts.shown == None
      ensures forall a | k.Smooth(a, old(k.now)) && old(FreshNonces()) && old(Passable(a)) :: r == Done(Measurement(boot, a))
    {
      hide Passable, ShowsValidated, AllJustified, Traced, FreshNonces, EachReplaced, StraysGrow, Clock.Replaced, Clock.MeasuredBetween;
      NoStray(strays, k.now);
      var s := k.Steps(2);
      if s != Proceed { return if s == PowerLoss then Crashed else Failed(LockUnavailable); }
      var begun := receipts.Remove(k);
      if !begun.Done? { return if begun.Crashed? then Crashed else Failed(NotInvalidated); }
      var candidate := k.Measure(boot);
      if !candidate.Done? { return candidate; }
      ghost var began := k.now;
      r := Canaries(candidate.value);
      StraysThen(old(strays), old(strays), strays, old(k.now), began);
      if r.Failed? { r := Abandon(); }
    }

    /** A valid receipt is kept; only a missing or outdated one is renewed, and a failure is that renewal's. */
    method EnsureReceipt() returns (r: Outcome<Measurement>)
      requires Sound()
      modifies this`markers, this`log, this`strays, k, receipts, challenges
      ensures Sound() && old(k.now) <= k.now && old(log) <= log
      ensures r.Crashed? ==> k.Stopped(old(k.now))
      ensures StraysGrow(old(strays), strays, old(k.now))
      ensures r.Done? ==> ReceiptFor(r.value)
      ensures r.Done? && receipts.shown != old(receipts.shown) ==> CrossedBoot(log, boot, r.value.artifacts)
      ensures forall a | k.Smooth(a, old(k.now)) && old(ReceiptFor(Measurement(boot, a))) ::
                r == Done(Measurement(boot, a)) && receipts.shown == old(receipts.shown) && log == old(log)
      ensures r.Failed? ==>
                match r.failure
                case LockUnavailable => receipts.shown == old(receipts.shown)
                case NotInvalidated => receipts.RemovalFailed(k, |old(receipts.removals)|)
                case Refused => receipts.shown == None
    {
      hide EachReplaced, StraysGrow, AllJustified, Traced;
      NoStray(strays, k.now);
      r := VerifyReceipt();
      ghost var began := k.now;
      if r.Failed? {
        r := Renew();
        StraysThen(old(strays), old(strays), strays, old(k.now), began);
      }
    }

    /** Preparation of the challenge; without `apply` it only reports. */
    method Prepare(apply: bool) returns (r: Outcome<Preparation>)
      requires Sound()
      modifies this`markers, this`log, k`now, challenges
      ensures Sound() && old(k.now) <= k.now && old(log) <= log
      ensures r.Crashed? ==> k.Stopped(old(k.now))
      ensures r == Failed(LockUnavailable) <==> apply && k.LockFault(old(k.now))
      ensures old(challenges.shown).Some? || !apply ==>
                && challenges.shown == old(challenges.shown) && markers == old(markers) && log == old(log)
                && (r.Done? ==> r.value.writes == 0)
      ensures r.Done? ==> r.value.measured.boot == boot && receipts.shown == None
      ensures r.Done? && r.value.status == Ready ==> !apply && challenges.shown == None
      ensures r.Done? && r.value.status == RebootRequired ==> Pending(r.value.measured.artifacts)
      ensures r.Done? && r.value.writes > 0 ==>
                r.value.writes == 2 && old(challenges.shown) == None && Wrote(old(log), None, r.value.measured.artifacts)
      ensures forall a | k.Smooth(a, old(k.now)) && old(receipts.shown) == None && old(FreshNonces()) && old(challenges.shown) == None && apply ::
                r == Done(Preparation(RebootRequired, 2, Measurement(boot, a)))
      ensures forall a | k.Smooth(a, old(k.now)) && old(receipts.shown) == None && old(Pending(a)) ::
                r == Done(Preparation(RebootRequired, 0, Measurement(boot, a)))
    {
      hide AllJustified, Accounted, WholeReceipt, FreshNonces, Wrote;
      var s := Proceed;
      if apply {
        s := k.Steps(2);
        if s != Proceed { return if s == PowerLoss then Crashed else Failed(LockUnavailable); }
      }
      s := k.Steps(2);
      if s != Proceed { return Halt(s); }
      if receipts.shown.Some? { return Failed(Refused); }
      var measured := k.Measure(boot);
      if !measured.Done? { return if measured.Crashed? then Crashed else Failed(Refused); }
      r := PrepareChallenge(measured.value, apply);
    }

    /** The challenge decides: only when there is none, and only with `apply`, one is written. */
    method PrepareChallenge(measured: Measurement, apply: bool) returns (r: Outcome<Preparation>)
      requires Sound() && measured.boot == boot
      modifies this`markers, this`log, k`now, challenges
      ensures Sound() && old(k.now) <= k.now && old(log) <= log
      ensures r.Crashed? ==> k.Stopped(old(k.now))
      ensures r.Failed? ==> r.failure == Refused
      ensures old(challenges.shown).Some? || !apply ==>
                && challenges.shown == old(challenges.shown) && markers == old(markers) && log == old(log)
                && (r.Done? ==> r.value.writes == 0)
      ensures r.Done? ==> r.value.measured == measured
      ensures r.Done? && r.value.status == Ready ==> !apply && challenges.shown == None
      ensures r.Done? && r.value.status == RebootRequired ==> Pending(measured.artifacts)
      ensures r.Done? && r.value.writes > 0 ==>
                r.value.writes == 2 && old(challenges.shown) == None && Wrote(old(log), None, measured.artifacts)
      ensures k.Smooth(measured.artifacts, old(k.now)) && old(FreshNonces()) && old(challenges.shown) == None && apply ==>
                r == Done(Preparation(RebootRequired, 2, measured))
      ensures k.Smooth(measured.artifacts, old(k.now)) && old(Pending(measured.artifacts)) ==>
                r == Done(Preparation(RebootRequired, 0, measured))
    {
      hide AllJustified, Accounted, WholeReceipt, FreshNonces;
      var artifacts := measured.artifacts;
      var s := k.Steps(2);
      if s != Proceed { return Halt(s); }
      var existing := ReadChallenge();
      if !existing.Done? { return if existing.Crashed? then Crashed else Failed(Refused); }
      var state := Classify(boot, existing.value, artifacts);
      if state == Some(PendingCurrentBoot) {
        var marked := CheckMarker(existing.value.value.nonce);
        if !marked.Done? { return if marked.Crashed? then Crashed else Failed(Refused); }
        return Done(Preparation(RebootRequired, 0, measured));
      }
      if state != Some(Absent) { return Failed(Refused); }
      if !apply { return Done(Preparation(Ready, 0, measured)); }
      r := WriteNewPreparation(measured);
    }

    ghost predicate Pending(artifacts: Artifacts)
      reads this, challenges
    {
      && challenges.shown.Some? && challenges.shown.value.Whole?
      && var c := challenges.shown.value.content;
         c.boot == boot && c.validated == None && c.artifacts == artifacts && MarkerStands(c.nonce)
    }

    /** Writes the challenge and reads it back. */
    method WriteNewPreparation(measured: Measurement) returns (r: Outcome<Preparation>)
      requires Sound()
      modifies this`markers, this`log, k`now, challenges
      ensures Sound() && old(k.now) <= k.now && old(log) <= log
      ensures r.Crashed? ==> k.Stopped(old(k.now))
      ensures r.Failed? ==> r.failure == Refused
      ensures r.Done? ==>
                && r.value == Preparation(RebootRequired, 2, measured) && Pending(measured.artifacts)
                && Wrote(old(log), None, measured.artifacts)
      ensures k.Smooth(measured.artifacts, old(k.now)) && old(FreshNonces()) ==> r.Done?
    {
      var written := WriteChallenge(None, measured.artifacts);
      if !written.Done? { return if written.Crashed? then Crashed else Failed(Refused); }
      var challenge := ReadChallenge();
      if !challenge.Done? { return if challenge.Crashed? then Crashed else Failed(Refused); }
      if challenge.value == None || Classify(boot, challenge.value, measured.artifacts) != Some(PendingCurrentBoot) {
        return Failed(Refused);
      }
      var marked := CheckMarker(challenge.value.value.nonce);
      if !marked.Done? { return if marked.Crashed? then Crashed else Failed(Refused); }
      r := Done(Preparation(RebootRequired, 2, measured));
    }

    /** A reboot empties /run and may undo renames that were never synchronised. */
    method Reboot(lost: bool)
      requires Sound()
      modifies this, receipts, challenges
      ensures Sound() && boot == old(boot) + 1 && log == old(log) && strays == old(strays)
      ensures receipts.shown == None && markers == map[]
      ensures challenges.shown == if lost then old(challenges.durable) else old(challenges.shown)
      ensures challenges.durable == challenges.shown
    {
      boot, markers := boot + 1, map[];
      receipts.shown, receipts.durable, receipts.temporary := None, None, None;
      if lost { challenges.shown := challenges.durable; }
      challenges.durable, challenges.temporary := challenges.shown, None;
    }

    /** The operator takes the challenge, or a marker, away. */
    method RemoveChallenge()
      requires Sound()
      modifies challenges
      ensures Sound() && challenges.shown == None
    {
      challenges.shown := None;
    }

    /** Carries out one event of a run; what a renewal or a check of the receipt answers is the answer. */
    method Handle(e: Event) returns (r: Option<Outcome<Measurement>>)
      requires Sound()
      modifies this, k, receipts, challenges
      ensures Sound() && old(k.now) <= k.now && old(log) <= log && old(boot) <= boot
      ensures StraysGrow(old(strays), strays, old(k.now))
      ensures r.Some? <==> e.RenewEvent? || e.EnsureEvent?
      ensures r.Some? && r.value.Done? ==> ReceiptFor(r.value.value)
      ensures r.Some? && r.value.Done? ==> Earned(log, r.value.value) || (e.EnsureEvent? && r.value.value in strays)
    {
      hide EachReplaced, StraysGrow, AllJustified, Traced;
      NoStray(strays, k.now);
      r := None;
      match e
      case PrepareEvent(apply) => var p := Prepare(apply);
      case RebootEvent(lost) => Reboot(lost);
      case RemoveChallengeEvent => RemoveChallenge();
      case RemoveMarkerEvent(nonce) => RemoveMarker(nonce);
      case EnsureEvent =>
        var ensured := EnsureReceipt();
        if ensured.Done? && ensured.value !in strays { CrossedFromPending(log, boot, boot, ensured.value.artifacts); }
        r := Some(ensured);
      case RenewEvent =>
        var renewed := Renew();
        if renewed.Done? { CrossedFromPending(log, boot, boot, renewed.value.artifacts); }
        r := Some(renewed);
    }

    /**
      Over a whole run, a renewal that succeeded was preceded by a reboot with a challenge
      standing, and so was every receipt a check accepted, except the stray ones; each of these
      comes from one commit whose second and third measurement agreed against the first.
    */
    method Run(events: seq<Event>) returns (answers: seq<Option<Outcome<Measurement>>>)
      requires Sound()
      modifies this, k, receipts, challenges
      ensures Sound() && old(log) <= log && old(boot) <= boot && |answers| == |events|
      ensures AllEarned(log, strays, events, answers)
      ensures StraysGrow(old(strays), strays, old(k.now))
    {
      answers := [];
      for n := 0 to |events|
        invariant Sound() && old(log) <= log && old(boot) <= boot && old(k.now) <= k.now && |answers| == n
        invariant AllEarned(log, strays, events, answers)
        invariant StraysGrow(old(strays), strays, old(k.now))
      {
        ghost var before, known, began := log, strays, k.now;
        var answer := Handle(events[n]);
        StraysThen(old(strays), known, strays, old(k.now), began);
        AllEarnedStays(before, log, known, strays, events, answers);
        answers := answers + [answer];
      }
    }

    method RemoveMarker(nonce: nat)
      requires Sound()
      modifies this`markers
      ensures Sound() && markers == old(markers) - {nonce}
    {
      markers := markers - {nonce};
    }
  }

  datatype Event =
    | PrepareEvent(apply: bool) | RenewEvent | EnsureEvent
    | RebootEvent(lost: bool) | RemoveChallengeEvent | RemoveMarkerEvent(nonce: nat)

  /** Before the boot of the renewal, in another boot, a challenge for the same artifacts was written and left pending. */
  ghost predicate Earned(log: seq<Challenge>, m: Measurement) {
    exists j | 0 <= j < |log| :: log[j].boot < m.boot && log[j].artifacts == m.artifacts && log[j].validated == None
  }

  ghost predicate AllEarned(log: seq<Challenge>, strays: Strays, events: seq<Event>, answers: seq<Option<Outcome<Measurement>>>) {
    && |answers| <= |events|
    && forall i | 0 <= i < |answers| && answers[i].Some? && answers[i].value.Done? ::
         Earned(log, answers[i].value.value) || (events[i].EnsureEvent? && answers[i].value.value in strays)
  }

  lemma AllEarnedStays(log: seq<Challenge>, more: seq<Challenge>, strays: Strays, others: Strays,
      events: seq<Event>, answers: seq<Option<Outcome<Measurement>>>)
    requires log <= more && strays.Keys <= others.Keys && AllEarned(log, strays, events, answers)
    ensures AllEarned(more, others, events, answers)
  {
    forall i | 0 <= i < |answers| && answers[i].Some? && answers[i].value.Done? && Earned(log, answers[i].value.value)
      ensures Earned(more, answers[i].value.value)
    {
      var m := answers[i].value.value;
      var j :| 0 <= j < |log| && log[j].boot < m.boot && log[j].artifacts == m.artifacts && log[j].validated == None;
      assert more[j] == log[j];
    }
  }

  /** With nothing failing and the artifacts steady: prepare, reboot and renew gives a receipt. */
  method PrepareRebootRenew(m: Machine, ghost a: Artifacts) returns (r: Outcome<Measurement>)
    requires m.Sound() && m.k.Smooth(a, m.k.now) && m.FreshNonces() && m.receipts.shown == None && m.challenges.shown == None
    modifies m, m.k, m.receipts, m.challenges
    ensures m.Sound() && r == Done(Measurement(m.boot, a)) && m.boot == old(m.boot) + 1 && m.ReceiptFor(r.value)
  {
    var prepared := m.Prepare(true);
    assert prepared == Done(Preparation(RebootRequired, 2, Measurement(m.boot, a)));
    m.Reboot(false);
    assert m.FreshNonces() && m.Passable(a);
    r := m.Renew();
  }

  /**
    The artifacts `b` are swapped in after the first measurement of a commit and the program
    is stopped behind the rename. The next check of the receipt accepts them, though no
    challenge for them was ever written.
  */
  method SwapDuringCommit(a: Artifacts, b: Artifacts) returns (committed: Outcome<Measurement>, accepted: Outcome<Measurement>)
    requires a != b
    ensures committed == Crashed && accepted == Done(Measurement(0, b))
  {
    var stop := COMMITTING;
    var k := new Clock(i => if i == stop then PowerLoss else Proceed, i => Some(if i < MEASURING then a else b), i => i);
    var m := new Machine(k);
    var canaries := map name | name in REQUIRED_CANARIES :: true;
    ValidCanariesExactly(canaries);
    assert k.CutOff(0, a, b);
    committed := m.Commit(Measurement(0, a), canaries);
    assert k.Smooth(b, k.now);
    accepted := m.EnsureReceipt();
    assert m.log == [];
  }

  /** A renewal that cannot take its lock fails, and the receipt it was to replace is still accepted. */
  method RefusedButStanding(m: Machine, a: Artifacts) returns (renewed: Outcome<Measurement>, accepted: Outcome<Measurement>)
    requires m.Sound() && m.ReceiptFor(Measurement(m.boot, a))
    requires m.k.signals(m.k.now) == Fault && m.k.Smooth(a, m.k.now + 1)
    modifies m, m.k, m.receipts, m.challenges
    ensures renewed == Failed(LockUnavailable) && accepted == Done(Measurement(m.boot, a))
  {
    hide AllJustified, Accounted, EachReplaced, StraysGrow, Traced;
    renewed := m.Renew();
    accepted := m.EnsureReceipt();
  }

  lemma ValidatedCrossed(log: seq<Challenge>, boot: nat, c: Challenge)
    requires AllJustified(log, boot) && c in log && c.validated.Some?
    ensures CrossedBoot(log, c.boot, c.artifacts)
  {
    var i :| 0 <= i < |log| && log[i] == c;
    assert Justified(log, i);
    CrossedStays(log[..i], log, c.boot, c.artifacts);
  }

  lemma EarlierCrossed(log: seq<Challenge>, boot: nat, c: Challenge)
    requires AllJustified(log, boot) && c in log && c.boot != boot
    ensures CrossedBoot(log, boot, c.artifacts)
  {
    var i :| 0 <= i < |log| && log[i] == c;
    assert log[i].boot <= boot;
  }
}
