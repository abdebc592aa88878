/** Nested time limits: supervisor inside launcher, launcher inside client, client inside attempt. */
module TimeBudgets {
  import opened Common
  import LauncherProtocol
  import Supervisor

  // Seconds, as the protocol declares them.
  const LAUNCHER_IO_TIMEOUT_SECONDS: nat := 5
  const LAUNCHER_PREFLIGHT_RESPONSE_TIMEOUT_SECONDS: nat := 10 * 60
  const INPUT_STAGING_TIMEOUT_SECONDS: nat := 10 * 60
  const INPUT_STAGING_PROCESS_TIMEOUT_SECONDS: nat := 9 * 60 + 30
  const PENDING_WORKSPACE_CLEANUP_TIMEOUT_SECONDS: nat := INPUT_STAGING_TIMEOUT_SECONDS
  const PENDING_WORKSPACE_CLEANUP_PROCESS_TIMEOUT_SECONDS: nat := INPUT_STAGING_PROCESS_TIMEOUT_SECONDS
  const LAUNCHER_PREPARATION_PROCESS_TIMEOUT_SECONDS: nat := 9 * 60 + 30
  const LAUNCHER_EXECUTION_PREPARATION_GRACE_SECONDS: nat := 10 * 60
  const LAUNCHER_CLEANUP_STEP_SECONDS: nat := 10
  const LAUNCHER_TRANSIENT_CLEANUP_SECONDS: nat := LAUNCHER_CLEANUP_STEP_SECONDS * 5
  const LAUNCHER_EXECUTION_CLEANUP_GRACE_SECONDS: nat := 110
  const LAUNCHER_CLEANUP_PROCESS_TIMEOUT_SECONDS: nat := 50
  const LAUNCHER_EXECUTE_RESPONSE_OVERHEAD_SECONDS: nat :=
    LAUNCHER_EXECUTION_PREPARATION_GRACE_SECONDS + LAUNCHER_EXECUTION_CLEANUP_GRACE_SECONDS + LAUNCHER_IO_TIMEOUT_SECONDS
  const EPHEMERAL_RUNNER_WALL_OVERHEAD_SECONDS: nat :=
    LAUNCHER_IO_TIMEOUT_SECONDS * 2 + LAUNCHER_PREFLIGHT_RESPONSE_TIMEOUT_SECONDS + INPUT_STAGING_TIMEOUT_SECONDS
    + PENDING_WORKSPACE_CLEANUP_TIMEOUT_SECONDS + LAUNCHER_IO_TIMEOUT_SECONDS * 2
    + LAUNCHER_EXECUTE_RESPONSE_OVERHEAD_SECONDS

  function Millis(seconds: nat): nat {
    1000 * seconds
  }

  /** How long the client waits for the answer to an execute request. */
  function ExecuteResponseTimeout(timeout: nat, ioTimeout: nat): nat {
    timeout + LAUNCHER_EXECUTE_RESPONSE_OVERHEAD_SECONDS
    + (if LAUNCHER_IO_TIMEOUT_SECONDS <= ioTimeout then ioTimeout - LAUNCHER_IO_TIMEOUT_SECONDS else 0)
  }

  /** What is left of a piece of work that is given up at its limit. */
  function Capped(length: nat, limit: nat): (elapsed: nat)
    ensures elapsed <= length && elapsed <= Millis(limit)
  {
    Min(length, Millis(limit))
  }

  /** The work runs under a watchdog that ends the whole process at its limit. */
  method UnderWatchdog(length: nat, limit: nat) returns (elapsed: nat, alive: bool)
    ensures elapsed == Capped(length, limit) && (alive <==> length <= Millis(limit))
  {
    alive := length <= Millis(limit);
    elapsed := if alive then length else Millis(limit);
  }

  /** The greatest lateness of a sleep with which the launcher still answers before its client gives up. */
  const LATEST_SLEEP: nat := 22_250

  /**
    The launcher's side of one execution: preparation, the supervised run, and clean-up of
    the workspace. It takes as long as these take together, and that is in time.
  */
  method ServeExecution(u: Supervisor.Unit, timeout: nat, preparation: nat, cleanup: nat, prepared: bool,
                        pipes: bool, emptyOutput: bool)
    returns (elapsed: nat, answered: bool)
    requires LauncherProtocol.TIMEOUT_SECONDS_MIN <= timeout <= LauncherProtocol.TIMEOUT_SECONDS_MAX
    requires u.terminations == 0 && u.seen == None && !u.capturesHeld
    modifies u
    ensures old(u.clock) <= u.clock
    ensures var began := prepared && preparation <= Millis(LAUNCHER_PREPARATION_PROCESS_TIMEOUT_SECONDS);
            && (!began ==> elapsed == Capped(preparation, LAUNCHER_PREPARATION_PROCESS_TIMEOUT_SECONDS))
            && (began ==> elapsed == preparation + (u.clock - old(u.clock)) + Capped(cleanup, LAUNCHER_CLEANUP_PROCESS_TIMEOUT_SECONDS))
            && (began && pipes && !u.s.cancelled(old(u.round)) && u.s.alive(old(u.round)) ==>
                  u.EndsAfter(Supervisor.LastWatch(u.s, old(u.round) + 1, old(u.clock), old(u.clock) + Millis(timeout)), old(u.waits), old(u.stops)))
    ensures forall lag: nat | Supervisor.Punctual(u.s, lag) && lag <= LATEST_SLEEP ::
              elapsed < Millis(ExecuteResponseTimeout(timeout, LAUNCHER_IO_TIMEOUT_SECONDS))
    ensures Supervisor.Punctual(u.s, 0) ==>
              elapsed <= Millis(LAUNCHER_PREPARATION_PROCESS_TIMEOUT_SECONDS + timeout + LAUNCHER_TRANSIENT_CLEANUP_SECONDS
                                + LAUNCHER_CLEANUP_PROCESS_TIMEOUT_SECONDS) + Supervisor.PEER_POLL_INTERVAL
  {
    elapsed, answered := UnderWatchdog(preparation, LAUNCHER_PREPARATION_PROCESS_TIMEOUT_SECONDS);
    if !answered || !prepared { return; }
    var start := u.clock;
    ghost var first := u.round + 1;
    var result := u.Run(Millis(timeout), pipes, emptyOutput);
    elapsed := elapsed + (u.clock - start);
    forall lag | Supervisor.Punctual(u.s, lag)
      ensures u.clock - start <= Millis(timeout) - 1 + 2 * (Supervisor.PEER_POLL_INTERVAL + lag) + 5 * Supervisor.CLEANUP_MARGIN
    {
      Supervisor.LastLookInTime(u.s, first, start, start + Millis(timeout), lag);
    }
    if Supervisor.Punctual(u.s, 0) { Supervisor.LastLookOnGrid(u.s, first, start, timeout); }
    var cleaned;
    cleaned, answered := UnderWatchdog(cleanup, LAUNCHER_CLEANUP_PROCESS_TIMEOUT_SECONDS);
    elapsed := elapsed + cleaned;
  }

  /**
    The slowest service there is with sleeps that are late by so much: for every timeout it
    answers in time exactly when that is at most the latest sleep.
  */
  method SlowestService(timeout: nat, lag: nat) returns (u: Supervisor.Unit, elapsed: nat)
    requires LauncherProtocol.TIMEOUT_SECONDS_MIN <= timeout <= LauncherProtocol.TIMEOUT_SECONDS_MAX && 249 <= lag
    ensures Supervisor.Punctual(u.s, lag)
    ensures elapsed < Millis(ExecuteResponseTimeout(timeout, LAUNCHER_IO_TIMEOUT_SECONDS)) <==> lag <= LATEST_SLEEP
  {
    hide Supervisor.Latest, Supervisor.TerminationTime, Supervisor.LastWatch, Supervisor.Punctual;
    Supervisor.LastLookReached(1, 0, timeout, lag);
    u := new Supervisor.Unit(Supervisor.Latest(1, 4 * timeout - 2, lag), 0);
    assert 1000 * timeout == Millis(timeout);
    ghost var look := Supervisor.LastLook(u.s, 1, 0, Millis(timeout));
    var answered;
    elapsed, answered := ServeExecution(u, timeout, Millis(LAUNCHER_PREPARATION_PROCESS_TIMEOUT_SECONDS),
                                        Millis(LAUNCHER_CLEANUP_PROCESS_TIMEOUT_SECONDS), true, true, false);
    assert u.clock == look + 5 * Supervisor.CLEANUP_MARGIN;
  }

  /** How long each step of an exchange would take. */
  datatype Lengths = Lengths(connect: nat, send: nat, receive: nat)

  predicate InTime(l: Lengths, ioTimeout: nat, responseTimeout: nat) {
    l.connect < Millis(ioTimeout) && l.send < Millis(ioTimeout) && l.receive < Millis(responseTimeout)
  }

  /** An exchange lasts until its last step or until the first one that is given up. */
  function ExchangeTime(l: Lengths, ioTimeout: nat, responseTimeout: nat): (elapsed: nat)
    ensures elapsed <= Millis(2 * ioTimeout + responseTimeout)
    ensures InTime(l, ioTimeout, responseTimeout) ==> elapsed == l.connect + l.send + l.receive
  {
    if l.connect >= Millis(ioTimeout) then Millis(ioTimeout)
    else if l.send >= Millis(ioTimeout) then l.connect + Millis(ioTimeout)
    else l.connect + l.send + Capped(l.receive, responseTimeout)
  }

  /** One request and its answer; each step gives up at its own limit. */
  method Exchange(l: Lengths, ioTimeout: nat, responseTimeout: nat) returns (elapsed: nat, ok: bool)
    ensures elapsed == ExchangeTime(l, ioTimeout, responseTimeout)
    ensures ok <==> InTime(l, ioTimeout, responseTimeout)
  {
    elapsed := Capped(l.connect, ioTimeout);
    ok := l.connect < Millis(ioTimeout);
    if !ok { return; }
    elapsed := elapsed + Capped(l.send, ioTimeout);
    ok := l.send < Millis(ioTimeout);
    if !ok { return; }
    elapsed := elapsed + Capped(l.receive, responseTimeout);
    ok := l.receive < Millis(responseTimeout);
  }

  /** The lengths of everything one isolated run waits for; `staged` is whether staging succeeds. */
  datatype Isolated = Isolated(preflight: Lengths, staging: nat, staged: bool, execute: Lengths, cleanup: nat)

  /** How long an isolated run lasts. */
  function IsolatedTime(timeout: nat, t: Isolated): (elapsed: nat)
    ensures elapsed <= Millis(timeout + EPHEMERAL_RUNNER_WALL_OVERHEAD_SECONDS)
    ensures && InTime(t.preflight, LAUNCHER_IO_TIMEOUT_SECONDS, LAUNCHER_PREFLIGHT_RESPONSE_TIMEOUT_SECONDS) && t.staged
            && InTime(t.execute, LAUNCHER_IO_TIMEOUT_SECONDS, ExecuteResponseTimeout(timeout, LAUNCHER_IO_TIMEOUT_SECONDS))
            && t.staging <= Millis(INPUT_STAGING_PROCESS_TIMEOUT_SECONDS) && t.cleanup <= Millis(PENDING_WORKSPACE_CLEANUP_PROCESS_TIMEOUT_SECONDS)
            ==> elapsed == t.preflight.connect + t.preflight.send + t.preflight.receive + t.staging
                           + t.execute.connect + t.execute.send + t.execute.receive + t.cleanup
  {
    var preflight := ExchangeTime(t.preflight, LAUNCHER_IO_TIMEOUT_SECONDS, LAUNCHER_PREFLIGHT_RESPONSE_TIMEOUT_SECONDS);
    if !InTime(t.preflight, LAUNCHER_IO_TIMEOUT_SECONDS, LAUNCHER_PREFLIGHT_RESPONSE_TIMEOUT_SECONDS) then preflight
    else
      var staging := preflight + Capped(t.staging, INPUT_STAGING_PROCESS_TIMEOUT_SECONDS);
      if t.staging > Millis(INPUT_STAGING_PROCESS_TIMEOUT_SECONDS) || !t.staged then staging
      else staging + ExchangeTime(t.execute, LAUNCHER_IO_TIMEOUT_SECONDS, ExecuteResponseTimeout(timeout, LAUNCHER_IO_TIMEOUT_SECONDS))
           + Capped(t.cleanup, PENDING_WORKSPACE_CLEANUP_PROCESS_TIMEOUT_SECONDS)
  }

  /** One isolated run seen from the bot: preflight, staging, execution and clean-up of what was staged. */
  method IsolatedAttempt(timeout: nat, t: Isolated) returns (elapsed: nat, alive: bool)
    ensures elapsed == IsolatedTime(timeout, t)
  {
    alive := true;
    var ready;
    elapsed, ready := Exchange(t.preflight, LAUNCHER_IO_TIMEOUT_SECONDS, LAUNCHER_PREFLIGHT_RESPONSE_TIMEOUT_SECONDS);
    if !ready { return; }
    var took;
    took, alive := UnderWatchdog(t.staging, INPUT_STAGING_PROCESS_TIMEOUT_SECONDS);
    elapsed := elapsed + took;
    if !alive || !t.staged { return; }
    var answered;
    took, answered := Exchange(t.execute, LAUNCHER_IO_TIMEOUT_SECONDS, ExecuteResponseTimeout(timeout, LAUNCHER_IO_TIMEOUT_SECONDS));
    elapsed := elapsed + took;
    took, alive := UnderWatchdog(t.cleanup, PENDING_WORKSPACE_CLEANUP_PROCESS_TIMEOUT_SECONDS);
    elapsed := elapsed + took;
  }
}
