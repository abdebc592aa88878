/**
  Supervision of one transient unit: a loop that waits for the child, a cancellation, the
  exit of the caller or the deadline, and the bounded clean-up behind every other way out.

  Times are in milliseconds. A schedule fixes what every round sees and how long it takes;
  a sleep may last longer than it was asked to, by the round's lateness.
*/
module Supervisor {
  import opened Common

  const PEER_POLL_INTERVAL: nat := 250
  const CLEANUP_MARGIN: nat := 10_000
  const OUTPUT_CAPTURE_BYTES: nat := 4 * 100_000 + 1024

  /** Which future the loop polls beside its sleep. */
  datatype Phase = Writing | Waiting

  datatype Schedule = Schedule(
    written: nat -> Option<bool>,     // prompt delivery finished in this round, and whether it succeeded
    exited: nat -> Option<ChildEnd>,  // the wait for the child finished in this round
    cancelled: nat -> bool,
    alive: nat -> bool,
    early: nat -> nat,                // when in the round the polled future finished
    late: nat -> nat,                 // how much longer than asked the sleep lasted
    waits: nat -> nat,                // how long each wait for a child or a capture would take
    waitFails: nat -> bool,           // whether it then ends with an error
    stopFails: nat -> bool)           // whether each step of stopping the unit fails

  datatype ChildEnd = Exit(success: bool) | WaitError

  datatype Stop = Delivered(ok: bool) | Ended(child: ChildEnd) | Cancelled | PeerExited | DeadlineReached

  function Polled(s: Schedule, p: Phase, n: nat): Option<Stop> {
    match p
    case Writing => if s.written(n).Some? then Some(Delivered(s.written(n).value)) else None
    case Waiting => if s.exited(n).Some? then Some(Ended(s.exited(n).value)) else None
  }

  function RoundEnd(s: Schedule, p: Phase, n: nat, clock: nat): (after: nat)
    ensures clock <= after <= clock + PEER_POLL_INTERVAL + s.late(n)
    ensures Polled(s, p, n) == None ==> clock + PEER_POLL_INTERVAL <= after
  {
    if Polled(s, p, n).Some? then clock + Min(s.early(n), PEER_POLL_INTERVAL + s.late(n))
    else clock + PEER_POLL_INTERVAL + s.late(n)
  }

  function ExitOf(stop: Stop): Option<bool> {
    if stop.Ended? && stop.child.Exit? then Some(stop.child.success) else None
  }

  /** What one round decides, if anything. */
  function Decision(s: Schedule, p: Phase, n: nat, after: nat, deadline: nat): Option<Stop> {
    if Polled(s, p, n).Some? then Polled(s, p, n)
    else if s.cancelled(n) then Some(Cancelled)
    else if !s.alive(n) then Some(PeerExited)
    else if deadline <= after then Some(DeadlineReached)
    else None
  }

  datatype Watched = Watched(stop: Stop, round: nat, clock: nat)

  /** The first round that decides. */
  function Watch(s: Schedule, p: Phase, n: nat, clock: nat, deadline: nat): Watched
    decreases if clock < deadline then deadline - clock else 0
  {
    var after := RoundEnd(s, p, n, clock);
    var decision := Decision(s, p, n, after, deadline);
    if decision.Some? then Watched(decision.value, n + 1, after) else Watch(s, p, n + 1, after, deadline)
  }

  ghost predicate Punctual(s: Schedule, lag: nat) {
    forall n :: s.late(n) <= lag
  }

  /** However the events fall, the loop is out after one round that began before the deadline, or after its only one. */
  lemma {:induction false} WatchStops(s: Schedule, p: Phase, n: nat, clock: nat, deadline: nat, lag: nat)
    requires Punctual(s, lag)
    ensures var w := Watch(s, p, n, clock, deadline);
            && n < w.round && clock <= w.clock <= (if clock < deadline then deadline - 1 else clock) + PEER_POLL_INTERVAL + lag
            && (w.stop == DeadlineReached ==> deadline <= w.clock)
            && (w.stop == Cancelled ==> s.cancelled(w.round - 1)) && (w.stop == PeerExited ==> !s.alive(w.round - 1))
            && (w.stop.Delivered? ==> p == Writing) && (w.stop.Ended? ==> p == Waiting && s.exited(w.round - 1) == Some(w.stop.child))
    decreases if clock < deadline then deadline - clock else 0
  {
    var after := RoundEnd(s, p, n, clock);
    if Decision(s, p, n, after, deadline) == None {
      WatchStops(s, p, n + 1, after, deadline, lag);
    }
  }

  /** With sleeps of exact length the rounds fall on a grid that the deadline is on. */
  lemma {:induction false} WatchOnGrid(s: Schedule, n: nat, clock: nat, deadline: nat)
    requires Punctual(s, 0) && clock < deadline && (deadline - clock) % PEER_POLL_INTERVAL == 0
    ensures Watch(s, Writing, n, clock, deadline).clock <= deadline
    decreases deadline - clock
  {
    var after := RoundEnd(s, Writing, n, clock);
    assert s.late(n) == 0;
    if Decision(s, Writing, n, after, deadline) == None { WatchOnGrid(s, n + 1, after, deadline); }
  }

  /** Nothing that happened before the deciding round was overlooked. */
  lemma {:induction false} WatchMissesNothing(s: Schedule, p: Phase, n: nat, clock: nat, deadline: nat, i: nat)
    requires n <= i < Watch(s, p, n, clock, deadline).round - 1
    ensures Polled(s, p, i) == None && !s.cancelled(i) && s.alive(i)
    decreases i - n
  {
    var after := RoundEnd(s, p, n, clock);
    if Decision(s, p, n, after, deadline) == None && n < i {
      WatchMissesNothing(s, p, n + 1, after, deadline, i);
    }
  }

  // ----- cleaning up -----

  /** How long a wait with the margin takes. */
  function Bounded(wait: nat): nat {
    Min(wait, CLEANUP_MARGIN)
  }

  /** A wait with the margin that ends in time and without an error. */
  predicate Fine(s: Schedule, wait: nat) {
    s.waits(wait) < CLEANUP_MARGIN && !s.waitFails(wait)
  }

  /** Signalling a process group and waiting; and killing it and waiting again if that was not enough. */
  function GroupTime(s: Schedule, wait: nat): nat {
    Bounded(s.waits(wait)) + if Fine(s, wait) then 0 else Bounded(s.waits(wait + 1))
  }

  function GroupWaits(s: Schedule, wait: nat): nat {
    if Fine(s, wait) then 1 else 2
  }

  /** The length of a termination that begins with these numbers of its next wait and its next step. */
  function TerminationTime(s: Schedule, wait: nat, stop: nat): (length: nat)
    ensures length <= 5 * CLEANUP_MARGIN
  {
    if s.stopFails(stop) then GroupTime(s, wait)
    else if s.waits(wait) < CLEANUP_MARGIN then s.waits(wait) + GroupTime(s, wait + 1)
    else CLEANUP_MARGIN + GroupTime(s, wait + 1) + GroupTime(s, wait + 1 + GroupWaits(s, wait + 1))
  }

  datatype ErrorKind = PromptWriteFailed | CallerExited | WasCancelled | WaitFailed | TerminationFailed | CaptureFailed

  datatype RunResult = Completed | TimedOut | Failed | NotStarted | Error(kind: ErrorKind)

  /** The supervised unit, its clock and what has been done to it. */
  class Unit {
    const s: Schedule
    var clock: nat
    var round: nat
    var waits: nat
    var stops: nat
    /** How often termination of the unit has been carried out. */
    var terminations: nat
    /** The child's process group has been told to end. */
    var childSignalled: bool
    /** The child's end, once the supervisor has seen it. */
    var seen: Option<bool>
    var capturesHeld: bool

    constructor (s: Schedule, clock: nat)
      ensures this.s == s && this.clock == clock && round == 0 && waits == 0 && stops == 0
      ensures terminations == 0 && seen == None && !capturesHeld && !childSignalled
    {
      this.s, this.clock := s, clock;
      round, waits, stops, terminations, seen, capturesHeld := 0, 0, 0, 0, None, false;
      childSignalled := false;
    }

    method Watching(p: Phase, deadline: nat) returns (stop: Stop)
      modifies this`clock, this`round
      ensures Watch(s, p, old(round), old(clock), deadline) == Watched(stop, round, clock)
    {
      while true
        invariant Watch(s, p, round, clock, deadline) == Watch(s, p, old(round), old(clock), deadline)
        decreases if clock < deadline then deadline - clock else 0
      {
        var after := RoundEnd(s, p, round, clock);
        var decision := Decision(s, p, round, after, deadline);
        clock, round := after, round + 1;
        if decision.Some? { return decision.value; }
      }
    }

    method WaitBounded() returns (ended: bool, fine: bool)
      modifies this`clock, this`waits
      ensures ended == (s.waits(old(waits)) < CLEANUP_MARGIN) && fine == Fine(s, old(waits))
      ensures clock == old(clock) + Bounded(s.waits(old(waits))) && waits == old(waits) + 1
    {
      clock := clock + Bounded(s.waits(waits));
      ended := s.waits(waits) < CLEANUP_MARGIN;
      fine := ended && !s.waitFails(waits);
      waits := waits + 1;
    }

    method StopStep() returns (failed: bool)
      modifies this`stops
      ensures failed == s.stopFails(old(stops)) && stops == old(stops) + 1
    {
      failed := s.stopFails(stops);
      stops := stops + 1;
    }

    /** Signals a process group and waits; kills it and waits again if that was not enough. */
    method TerminateGroup()
      modifies this`clock, this`waits
      ensures clock == old(clock) + GroupTime(s, old(waits)) && waits == old(waits) + GroupWaits(s, old(waits))
    {
      var ended, fine := WaitBounded();
      if !fine { ended, fine := WaitBounded(); }
    }

    /** Asks for the unit to be stopped, then ends the supervising child whatever the answer was. */
    method TerminateUnit() returns (ok: bool)
      modifies this`clock, this`waits, this`stops, this`terminations, this`childSignalled
      ensures clock == old(clock) + TerminationTime(s, old(waits), old(stops))
      ensures terminations == old(terminations) + 1 && childSignalled && old(stops) < stops
      ensures ok <==> !s.stopFails(old(stops)) && Fine(s, old(waits)) && !s.stopFails(old(stops) + 1)
    {
      var unstarted := StopStep();
      ok := false;
      if !unstarted {
        var ended, fine := WaitBounded();
        if fine {
          var failed := StopStep();
          ok := !failed;
        } else if !ended {
          TerminateGroup();
        }
      }
      TerminateGroup();
      childSignalled := true;
      terminations := terminations + 1;
    }

    /** Termination comes before the reason for it; only its own failure hides that reason. */
    method TerminateFor(reason: RunResult) returns (r: RunResult)
      modifies this`clock, this`waits, this`stops, this`terminations, this`childSignalled, this`capturesHeld
      ensures clock == old(clock) + TerminationTime(s, old(waits), old(stops))
      ensures terminations == old(terminations) + 1 && !capturesHeld && childSignalled
      ensures r == reason || r == Error(TerminationFailed)
      ensures StepsWork(s) ==> r == reason
    {
      var ok := TerminateUnit();
      capturesHeld := false;
      r := if ok then reason else Error(TerminationFailed);
    }

    /** Both captures are waited for at once; each may be late, or fail to be read or joined. */
    method CollectCaptures() returns (ok: bool)
      modifies this`clock, this`waits, this`capturesHeld
      ensures old(clock) <= clock <= old(clock) + CLEANUP_MARGIN && !capturesHeld
      ensures ok <==> Fine(s, old(waits)) && Fine(s, old(waits) + 1)
    {
      var stdout, stderr := s.waits(waits), s.waits(waits + 1);
      clock := clock + Max(Bounded(stdout), Bounded(stderr));
      ok := stdout < CLEANUP_MARGIN && !s.waitFails(waits) && stderr < CLEANUP_MARGIN && !s.waitFails(waits + 1);
      waits := waits + 2;
      capturesHeld := false;
    }

    /** What a child that has exited means. */
    method Judge(success: bool, deadline: nat, emptyOutput: bool) returns (r: RunResult)
      modifies this`clock, this`waits, this`capturesHeld
      ensures old(clock) <= clock <= old(clock) + CLEANUP_MARGIN && !capturesHeld
      ensures Settled(r, Watched(Ended(Exit(success)), 0, old(clock)), deadline, emptyOutput)
      ensures r == TimedOut ==> deadline <= clock
      ensures StepsWork(s) ==> !r.Error?
    {
      if deadline <= clock {
        capturesHeld := false;
        return TimedOut;
      }
      var collected := CollectCaptures();
      if !collected { return Error(CaptureFailed); }
      if !success { return if deadline <= clock then TimedOut else Failed; }
      r := if emptyOutput then Failed else Completed;
    }

    /** After the last look comes the collection of the output, or a termination. */
    ghost predicate EndsAfter(w: Watched, wait: nat, stop: nat)
      reads this
    {
      if ExitOf(w.stop).Some? then w.clock <= clock <= w.clock + CLEANUP_MARGIN
      else clock == w.clock + TerminationTime(s, wait, stop)
    }

    /** The prompt has been delivered; waits for the child. */
    method Await(deadline: nat, emptyOutput: bool) returns (r: RunResult)
      requires terminations == 0 && seen == None
      modifies this
      ensures old(clock) <= clock
      ensures (seen.Some? && terminations == 0) || (seen == None && terminations == 1 && childSignalled)
      ensures !capturesHeld
      ensures StepsWork(s) ==> r !in {Error(TerminationFailed), Error(CaptureFailed)}
      ensures Settled(r, Watch(s, Waiting, old(round), old(clock), deadline), deadline, emptyOutput)
      ensures EndsAfter(Watch(s, Waiting, old(round), old(clock), deadline), old(waits), old(stops))
      ensures seen == ExitOf(Watch(s, Waiting, old(round), old(clock), deadline).stop)
    {
      WatchStopsHere(Waiting, deadline);
      var stop := Watching(Waiting, deadline);
      match stop
      case Cancelled => r := TerminateFor(Error(WasCancelled));
      case PeerExited => r := TerminateFor(Error(CallerExited));
      case DeadlineReached => r := TerminateFor(TimedOut);
      case Ended(WaitError) => r := TerminateFor(Error(WaitFailed));
      case Ended(Exit(success)) =>
        seen := Some(success);
        r := Judge(success, deadline, emptyOutput);
    }

    lemma WatchStopsHere(p: Phase, deadline: nat)
      ensures var stop := Watch(s, p, round, clock, deadline).stop;
              (stop.Delivered? ==> p == Writing) && (stop.Ended? ==> p == Waiting)
      ensures Watch(s, p, round, clock, deadline).clock >= clock
    {
      WatchKind(s, p, round, clock, deadline);
    }

    /** What follows the delivery of the prompt, however that ended. */
    method Conclude(delivery: Stop, deadline: nat, emptyOutput: bool) returns (r: RunResult)
      requires terminations == 0 && seen == None && !delivery.Ended?
      modifies this
      ensures old(clock) <= clock && !capturesHeld
      ensures (seen.Some? && terminations == 0) || (seen == None && terminations == 1 && childSignalled)
      ensures Concluded(s, Watched(delivery, old(round), old(clock)), deadline, emptyOutput, r)
      ensures StepsWork(s) ==> r !in {Error(TerminationFailed), Error(CaptureFailed)}
      ensures seen == if delivery == Delivered(true) then ExitOf(Watch(s, Waiting, old(round), old(clock), deadline).stop) else None
      ensures EndsAfter(LastWatchAfter(s, Watched(delivery, old(round), old(clock)), deadline), old(waits), old(stops))
    {
      match delivery
      case Delivered(true) =>
        r := Await(deadline, emptyOutput);
      case Delivered(false) => r := TerminateFor(Error(PromptWriteFailed));
      case PeerExited => r := TerminateFor(Error(CallerExited));
      case Cancelled => r := TerminateFor(Error(WasCancelled));
      case DeadlineReached => r := TerminateFor(TimedOut);
    }

    /**
      One supervised run. Once the pipes are taken, every return either saw the child exit or
      terminated the unit, exactly once; completion needs an exit seen before the deadline.
    */
    method Run(timeout: nat, pipes: bool, emptyOutput: bool) returns (r: RunResult)
      requires terminations == 0 && seen == None && !capturesHeld
      modifies this
      ensures old(clock) <= clock && !capturesHeld
      ensures s.cancelled(old(round)) || !s.alive(old(round)) || !pipes <==> r == NotStarted
      ensures r == NotStarted ==> terminations == 0 && seen == None && clock == old(clock)
      ensures r != NotStarted ==> (seen.Some? && terminations == 0) || (seen == None && terminations == 1 && childSignalled)
      ensures r != NotStarted ==> Verdict(s, old(round) + 1, old(clock), old(clock) + timeout, emptyOutput, r)
      ensures StepsWork(s) ==> r !in {Error(TerminationFailed), Error(CaptureFailed)}
      ensures r == Completed ==> seen == Some(true) && SeenBefore(s, old(round) + 1, old(clock), old(clock) + timeout)
      ensures r != NotStarted ==> EndsAfter(LastWatch(s, old(round) + 1, old(clock), old(clock) + timeout), old(waits), old(stops))
    {
      var stopped := s.cancelled(round) || !s.alive(round);
      round := round + 1;
      if stopped || !pipes { return NotStarted; }
      var deadline := clock + timeout;
      capturesHeld := true;
      WatchStopsHere(Writing, deadline);
      var delivery := Watching(Writing, deadline);
      r := Conclude(delivery, deadline, emptyOutput);
    }
  }

  /** When the last round of a run ends; only clean-up comes after. */
  function LastLook(s: Schedule, n: nat, start: nat, deadline: nat): nat {
    LastWatch(s, n, start, deadline).clock
  }

  function LastWatch(s: Schedule, n: nat, start: nat, deadline: nat): Watched {
    LastWatchAfter(s, Watch(s, Writing, n, start, deadline), deadline)
  }

  function LastWatchAfter(s: Schedule, w: Watched, deadline: nat): Watched {
    if w.stop == Delivered(true) then Watch(s, Waiting, w.round, w.clock, deadline) else w
  }

  /**
    Two polls at the most, whatever the schedule: the end of the delivery does not look at
    the deadline. The first of them begins before the deadline.
  */
  lemma LastLookInTime(s: Schedule, n: nat, start: nat, deadline: nat, lag: nat)
    requires Punctual(s, lag) && start < deadline
    ensures LastLook(s, n, start, deadline) <= deadline - 1 + 2 * (PEER_POLL_INTERVAL + lag)
  {
    WatchStops(s, Writing, n, start, deadline, lag);
    var w := Watch(s, Writing, n, start, deadline);
    WatchStops(s, Waiting, w.round, w.clock, deadline, lag);
  }

  /**
    From round `n` on sleeps are exact for so many rounds; the next lasts 249 longer, and all
    others as much longer as they may. The prompt is delivered in the second of these, at
    its very end, and nothing else ever happens; every wait of the clean-up takes its time.
  */
  function Latest(n: nat, exact: nat, lag: nat): Schedule {
    Schedule(i => if i == n + exact + 1 then Some(true) else None, i => None, i => false, i => true,
             i => PEER_POLL_INTERVAL + lag,
             i => if i < n + exact then 0 else if i == n + exact then 249 else lag,
             i => CLEANUP_MARGIN, i => false, i => false)
  }

  lemma {:induction false} LatestWrites(n: nat, exact: nat, lag: nat, i: nat, clock: nat, deadline: nat)
    requires n <= i <= n + exact && clock + PEER_POLL_INTERVAL * (n + exact - i + 2) == deadline
    ensures Watch(Latest(n, exact, lag), Writing, i, clock, deadline)
            == Watched(Delivered(true), n + exact + 2, deadline - 1 + PEER_POLL_INTERVAL + lag)
    decreases n + exact - i
  {
    var s := Latest(n, exact, lag);
    var after := RoundEnd(s, Writing, i, clock);
    assert Decision(s, Writing, i, after, deadline) == None;
    if i < n + exact {
      LatestWrites(n, exact, lag, i + 1, after, deadline);
    } else {
      assert Watch(s, Writing, i + 1, after, deadline).clock == deadline - 1 + PEER_POLL_INTERVAL + lag;
    }
  }

  /** The bound is reached, for every timeout in whole seconds. */
  lemma LastLookReached(n: nat, start: nat, seconds: nat, lag: nat)
    requires seconds > 0 && 249 <= lag
    ensures var s, deadline := Latest(n, 4 * seconds - 2, lag), start + 1000 * seconds;
            && Punctual(s, lag) && LastWatch(s, n, start, deadline).stop == DeadlineReached
            && LastLook(s, n, start, deadline) == deadline - 1 + 2 * (PEER_POLL_INTERVAL + lag)
            && TerminationTime(s, 0, 0) == 5 * CLEANUP_MARGIN && !s.cancelled(0) && s.alive(0)
  {
    var s, deadline := Latest(n, 4 * seconds - 2, lag), start + 1000 * seconds;
    LatestWrites(n, 4 * seconds - 2, lag, n, start, deadline);
    var w := Watch(s, Writing, n, start, deadline);
    assert Decision(s, Waiting, w.round, RoundEnd(s, Waiting, w.round, w.clock), deadline) == Some(DeadlineReached);
  }

  /** One poll when sleeps are exact and the timeout is a whole number of seconds. */
  lemma LastLookOnGrid(s: Schedule, n: nat, start: nat, seconds: nat)
    requires Punctual(s, 0) && seconds > 0
    ensures LastLook(s, n, start, start + 1000 * seconds) <= start + 1000 * seconds + PEER_POLL_INTERVAL
  {
    var deadline := start + 1000 * seconds;
    WatchOnGrid(s, n, start, deadline);
    var w := Watch(s, Writing, n, start, deadline);
    WatchStops(s, Waiting, w.round, w.clock, deadline, 0);
  }

  /** The last look comes at most one poll, if late, after the deadline. */
  ghost predicate OnePoll(s: Schedule, n: nat, start: nat, seconds: nat, lag: nat) {
    LastLook(s, n, start, start + 1000 * seconds) <= start + 1000 * seconds + PEER_POLL_INTERVAL + lag
  }

  /** Whatever happens, for every timeout in whole seconds. */
  ghost predicate OnePollEnough(lag: nat) {
    forall s, n: nat, start: nat, seconds: nat | Punctual(s, lag) && seconds > 0 :: OnePoll(s, n, start, seconds, lag)
  }

  lemma OnePollExactly(lag: nat)
    ensures OnePollEnough(lag) <==> lag == 0
  {
    if lag == 0 {
      forall s, n: nat, start: nat, seconds: nat | Punctual(s, lag) && seconds > 0 ensures OnePoll(s, n, start, seconds, lag) {
        LastLookOnGrid(s, n, start, seconds);
      }
    } else {
      TwoPolls(lag);
    }
  }

  /** Three rounds that are late by one put the fourth across the deadline, and the prompt is delivered at its end. */
  lemma TwoPolls(lag: nat)
    requires lag > 0
    ensures !OnePollEnough(lag)
  {
    var s := Schedule(i => if i == 3 then Some(true) else None, i => None, i => false, i => true,
                      i => PEER_POLL_INTERVAL + lag, i => if i < 3 then 1 else lag, i => 0, i => false, i => false);
    assert Watch(s, Writing, 3, 753, 1000) == Watched(Delivered(true), 4, 1003 + lag);
    assert Watch(s, Writing, 2, 502, 1000) == Watch(s, Writing, 3, 753, 1000);
    assert Watch(s, Writing, 1, 251, 1000) == Watch(s, Writing, 2, 502, 1000);
    assert Watch(s, Writing, 0, 0, 1000) == Watch(s, Writing, 1, 251, 1000);
    assert Watch(s, Waiting, 4, 1003 + lag, 1000).clock == 1253 + 2 * lag;
    assert Punctual(s, lag) && !OnePoll(s, 0, 0, 1, lag);
  }

  /** Stopping a unit, and every wait, succeeds in good time. */
  ghost predicate StepsWork(s: Schedule) {
    forall i :: !s.stopFails(i) && Fine(s, i)
  }

  lemma {:induction false} WatchKind(s: Schedule, p: Phase, n: nat, clock: nat, deadline: nat)
    ensures var w := Watch(s, p, n, clock, deadline);
            clock <= w.clock && (w.stop.Delivered? ==> p == Writing) && (w.stop.Ended? ==> p == Waiting)
    decreases if clock < deadline then deadline - clock else 0
  {
    var after := RoundEnd(s, p, n, clock);
    if Decision(s, p, n, after, deadline) == None { WatchKind(s, p, n + 1, after, deadline); }
  }

  /** What a wait that ended this way may answer. */
  ghost predicate Settled(r: RunResult, w: Watched, deadline: nat, emptyOutput: bool) {
    match w.stop
    case Cancelled => r in {Error(WasCancelled), Error(TerminationFailed)}
    case PeerExited => r in {Error(CallerExited), Error(TerminationFailed)}
    case DeadlineReached => r in {TimedOut, Error(TerminationFailed)}
    case Delivered(_) => false
    case Ended(WaitError) => r in {Error(WaitFailed), Error(TerminationFailed)}
    case Ended(Exit(success)) =>
      if deadline <= w.clock then r == TimedOut
      else if success then r in {if emptyOutput then Failed else Completed, Error(CaptureFailed)}
      else r in {Failed, TimedOut, Error(CaptureFailed)}
  }

  ghost predicate Concluded(s: Schedule, w: Watched, deadline: nat, emptyOutput: bool, r: RunResult) {
    match w.stop
    case Delivered(true) => Settled(r, Watch(s, Waiting, w.round, w.clock, deadline), deadline, emptyOutput)
    case Delivered(false) => r in {Error(PromptWriteFailed), Error(TerminationFailed)}
    case Cancelled => r in {Error(WasCancelled), Error(TerminationFailed)}
    case PeerExited => r in {Error(CallerExited), Error(TerminationFailed)}
    case DeadlineReached => r in {TimedOut, Error(TerminationFailed)}
    case Ended(_) => false
  }

  ghost predicate Verdict(s: Schedule, n: nat, start: nat, deadline: nat, emptyOutput: bool, r: RunResult) {
    Concluded(s, Watch(s, Writing, n, start, deadline), deadline, emptyOutput, r)
  }

  /** The prompt was delivered and a successful exit was seen while the clock was before the deadline. */
  ghost predicate SeenBefore(s: Schedule, n: nat, start: nat, deadline: nat) {
    var w := Watch(s, Writing, n, start, deadline);
    var x := Watch(s, Waiting, w.round, w.clock, deadline);
    w.stop == Delivered(true) && x.stop == Ended(Exit(true)) && x.clock < deadline
  }

  // ----- captured output -----

  function Joined(chunks: seq<seq<Byte>>): seq<Byte> {
    if chunks == [] then [] else Joined(chunks[..|chunks| - 1]) + chunks[|chunks| - 1]
  }

  /** Everything is read; what is kept is exactly the first `limit` bytes, and it is said whether that was all. */
  method ReadLimited(chunks: seq<seq<Byte>>, limit: nat) returns (kept: seq<Byte>, truncated: bool)
    ensures kept == Joined(chunks)[..Min(limit, |Joined(chunks)|)]
    ensures truncated <==> limit < |Joined(chunks)|
  {
    kept, truncated := [], false;
    for i := 0 to |chunks|
      invariant kept == Joined(chunks[..i])[..Min(limit, |Joined(chunks[..i])|)]
      invariant truncated <==> limit < |Joined(chunks[..i])|
    {
      assert chunks[..i + 1][..i] == chunks[..i];
      var keep := Min(|chunks[i]|, limit - |kept|);
      kept := kept + chunks[i][..keep];
      truncated := truncated || keep < |chunks[i]|;
    }
    assert chunks[..|chunks|] == chunks;
  }
}
