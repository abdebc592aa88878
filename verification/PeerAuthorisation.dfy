/**
  Authorising the caller of the launcher while process numbers may be given out again.

  Every read asks the host about whichever process holds the number at that instant. The
  descriptor of the peer names one process for good, so the two looks at whether it lives
  pin all the reads between them to that process.
*/
module PeerAuthorisation {
  import opened Common

  type Pid = nat

  /** A process, which is not its number: numbers are used again, processes are not. */
  type Identity = nat

  datatype State = State(startTime: nat, executable: string, cgroup: string)

  datatype File = File(regular: bool, symlink: bool, uid: nat, groupOrOtherWritable: bool, executable: bool)

  datatype World = World(holders: map<Pid, Identity>, states: map<Identity, State>, mainPid: Pid, bot: File)

  type Run = nat -> World

  const BOT_EXECUTABLE_PATH: string := "/opt/webex-generic-account-bot/bin/webex-generic-account-bot"

  ghost predicate Alive(w: World, p: Identity, pid: Pid) {
    pid in w.holders && w.holders[pid] == p && p in w.states
  }

  ghost predicate Lives(w: World, p: Identity) {
    exists pid :: Alive(w, p, pid)
  }

  /** A process keeps its number while it lives, and once gone it does not come back. */
  ghost predicate Lawful(run: Run) {
    && (forall t, pid | pid in run(t).holders :: run(t).holders[pid] in run(t).states)
    && (forall i, j, p, a, b | Alive(run(i), p, a) && Alive(run(j), p, b) :: a == b)
    && (forall i, j, k, p | i <= j <= k && Lives(run(i), p) && Lives(run(k), p) :: Lives(run(j), p))
  }

  predicate Trusted(f: File) {
    f.regular && !f.symlink && f.uid == 0 && !f.groupOrOtherWritable && f.executable
  }

  datatype Credentials = Credentials(pid: Pid, uid: nat)

  /** The launcher's probes: every call happens at a later instant, and may fail. */
  class Host {
    const run: Run
    const gaps: nat -> nat
    const faults: nat -> bool
    var now: nat
    var calls: nat

    constructor (run: Run, gaps: nat -> nat, faults: nat -> bool)
      ensures this.run == run && this.faults == faults
    {
      this.run, this.gaps, this.faults := run, gaps, faults;
      now, calls := 0, 0;
    }

    ghost predicate Quiet(w: World) {
      (forall i :: !faults(i)) && forall t :: run(t) == w
    }

    method Call() returns (failed: bool)
      modifies this
      ensures old(now) <= now && failed == faults(old(calls))
    {
      now := now + gaps(calls);
      failed := faults(calls);
      calls := calls + 1;
    }

    /** The number in the information about the descriptor, and so the number its process has. */
    method DescriptorPid(process: Identity, guess: Pid) returns (matches: bool)
      modifies this
      ensures old(now) <= now
      ensures matches ==> Alive(run(now), process, guess)
      ensures forall w | Quiet(w) :: matches <==> guess in w.holders && w.holders[guess] == process && process in w.states
    {
      var failed := Call();
      var w := run(now);
      matches := !failed && guess in w.holders && w.holders[guess] == process && process in w.states;
    }

    /** Polling the descriptor; `number` is where the process would be found. */
    method Poll(process: Identity, ghost number: Pid) returns (alive: bool)
      requires Lawful(run)
      modifies this
      ensures old(now) <= now
      ensures alive ==> Lives(run(now), process)
      ensures forall w | Quiet(w) && Alive(w, process, number) :: alive
    {
      var failed := Call();
      var w := run(now);
      var living := exists pid | pid in w.holders :: w.holders[pid] == process;
      alive := !failed && living;
      if alive {
        var pid :| pid in w.holders && w.holders[pid] == process;
        assert Alive(w, process, pid);
      }
    }

    /** One read below the process directory of a number: about whoever holds it now. */
    method ReadState(pid: Pid) returns (s: Option<State>)
      modifies this
      ensures old(now) <= now
      ensures s.Some? ==> pid in run(now).holders && run(now).holders[pid] in run(now).states
                          && s.value == run(now).states[run(now).holders[pid]]
      ensures forall w | Quiet(w) && pid in w.holders && w.holders[pid] in w.states :: s == Some(w.states[w.holders[pid]])
    {
      var failed := Call();
      var w := run(now);
      s := if failed || pid !in w.holders || w.holders[pid] !in w.states then None else Some(w.states[w.holders[pid]]);
    }

    method MainPid() returns (pid: Option<Pid>)
      modifies this
      ensures old(now) <= now
      ensures pid.Some? ==> pid.value == run(now).mainPid
      ensures forall w | Quiet(w) :: pid == Some(w.mainPid)
    {
      var failed := Call();
      pid := if failed then None else Some(run(now).mainPid);
    }

    method BotFile() returns (f: Option<File>)
      modifies this
      ensures old(now) <= now
      ensures f.Some? ==> f.value == run(now).bot
      ensures forall w | Quiet(w) :: f == Some(w.bot)
    {
      var failed := Call();
      f := if failed then None else Some(run(now).bot);
    }

    /** Three reads, each at its own instant: start time, control group, executable. */
    method Snapshot(pid: Pid) returns (s: Option<State>, ghost times: (nat, nat, nat))
      modifies this
      ensures old(now) <= times.0 <= times.1 <= times.2 == now
      ensures s.Some? ==> Taken(run, pid, s.value, times)
      ensures forall w | Quiet(w) && pid in w.holders && w.holders[pid] in w.states :: s == Some(w.states[w.holders[pid]])
    {
      var stat := ReadState(pid);
      ghost var first := now;
      var cgroup := ReadState(pid);
      ghost var second := now;
      var exe := ReadState(pid);
      times := (first, second, now);
      s := if stat == None || cgroup == None || exe == None then None
           else Some(State(stat.value.startTime, exe.value.executable, cgroup.value.cgroup));
    }

    /** The two snapshots, with the answer of the service manager and the executable between them. */
    method Inspect(pid: Pid, botGroup: string -> bool) returns (ok: bool, ghost seen: Inspection)
      modifies this
      ensures old(now) <= now
      ensures ok ==> Inspected(run, pid, seen, old(now), now, botGroup)
      ensures forall w | Quiet(w) && pid in w.holders && w.holders[pid] in w.states ::
                ok <==> && w.mainPid == pid && Trusted(w.bot) && w.states[w.holders[pid]].executable == BOT_EXECUTABLE_PATH
                        && botGroup(w.states[w.holders[pid]].cgroup)
    {
      hide Taken;
      ok, seen := false, Inspection(State(0, "", ""), (0, 0, 0), 0, 0, (0, 0, 0));
      var before; ghost var early;
      before, early := Snapshot(pid);
      if before == None { return; }
      var mainPid := MainPid();
      ghost var asked := now;
      if mainPid != Some(pid) || before.value.executable != BOT_EXECUTABLE_PATH || !botGroup(before.value.cgroup) { return; }
      var file := BotFile();
      ghost var inspected := now;
      if file == None || !Trusted(file.value) { return; }
      var after; ghost var late;
      after, late := Snapshot(pid);
      if after != before { return; }
      ok, seen := true, Inspection(before.value, early, asked, inspected, late);
    }

    /**
      Success means that the process behind the descriptor held the caller's number from the
      first look at the descriptor to the last, and that everything read was read about it.
    */
    method Authorise(peer: Credentials, process: Identity, botGroup: string -> bool) returns (ok: bool)
      requires Lawful(run)
      modifies this
      ensures old(now) <= now
      ensures ok ==> exists first | old(now) <= first <= now :: Pinned(run, peer.pid, process, first, now, botGroup)
      ensures ok ==> peer.pid > 1 && peer.uid != 0
      ensures forall w | Quiet(w) :: ok <==> Entitled(w, peer, process, botGroup)
    {
      hide Inspected, Lawful, Lives, Pinned;
      var matches := DescriptorPid(process, peer.pid);
      ghost var first := now;
      if !matches || peer.pid <= 1 || peer.uid == 0 { return false; }
      var alive := Poll(process, peer.pid);
      if !alive { return false; }
      ghost var seen;
      ghost var polled := now;
      ok, seen := Inspect(peer.pid, botGroup);
      if !ok { return; }
      ghost var done := now;
      ok := Poll(process, peer.pid);
      if ok { PinnedBetween(run, peer.pid, process, seen, first, polled, done, now, botGroup); }
    }
  }

  /** What the checks saw and when. */
  datatype Inspection = Inspection(state: State, early: (nat, nat, nat), asked: nat, inspected: nat, late: (nat, nat, nat))

  ghost predicate Inspected(run: Run, pid: Pid, seen: Inspection, lo: nat, hi: nat, botGroup: string -> bool) {
    && Taken(run, pid, seen.state, seen.early) && Taken(run, pid, seen.state, seen.late)
    && run(seen.asked).mainPid == pid && Trusted(run(seen.inspected).bot)
    && seen.state.executable == BOT_EXECUTABLE_PATH && botGroup(seen.state.cgroup)
    && lo <= seen.early.0 <= seen.early.1 <= seen.early.2 <= seen.asked <= seen.inspected
    && seen.inspected <= seen.late.0 <= seen.late.1 <= seen.late.2 <= hi
  }

  ghost predicate Taken(run: Run, pid: Pid, s: State, times: (nat, nat, nat)) {
    && Answers(run, pid, times.0) && Answers(run, pid, times.1) && Answers(run, pid, times.2)
    && s.startTime == HolderState(run, pid, times.0).startTime
    && s.cgroup == HolderState(run, pid, times.1).cgroup
    && s.executable == HolderState(run, pid, times.2).executable
  }

  ghost predicate Answers(run: Run, pid: Pid, t: nat) {
    pid in run(t).holders && run(t).holders[pid] in run(t).states
  }

  ghost function HolderState(run: Run, pid: Pid, t: nat): State
    requires Answers(run, pid, t)
  {
    run(t).states[run(t).holders[pid]]
  }

  /** The process itself was seen in this state, piece by piece, at these instants. */
  ghost predicate Seen(run: Run, process: Identity, s: State, times: (nat, nat, nat)) {
    && process in run(times.0).states && s.startTime == run(times.0).states[process].startTime
    && process in run(times.1).states && s.cgroup == run(times.1).states[process].cgroup
    && process in run(times.2).states && s.executable == run(times.2).states[process].executable
  }

  /** All that success says, about the one process and within the one stretch of time. */
  ghost predicate Pinned(run: Run, pid: Pid, process: Identity, first: nat, last: nat, botGroup: string -> bool) {
    && (forall t | first <= t <= last :: Alive(run(t), process, pid))
    && exists seen: Inspection :: About(run, pid, process, seen, first, last, botGroup)
  }

  ghost predicate About(run: Run, pid: Pid, process: Identity, seen: Inspection, first: nat, last: nat, botGroup: string -> bool) {
    && Seen(run, process, seen.state, seen.early) && Seen(run, process, seen.state, seen.late)
    && run(seen.asked).mainPid == pid && Trusted(run(seen.inspected).bot)
    && seen.state.executable == BOT_EXECUTABLE_PATH && botGroup(seen.state.cgroup)
    && first <= seen.early.0 <= seen.early.1 <= seen.early.2 <= seen.asked <= seen.inspected
    && seen.inspected <= seen.late.0 <= seen.late.1 <= seen.late.2 <= last
  }

  lemma PinnedBetween(run: Run, pid: Pid, process: Identity, seen: Inspection, first: nat, polled: nat, done: nat, last: nat,
                      botGroup: string -> bool)
    requires Lawful(run) && first <= polled <= done <= last
    requires Alive(run(first), process, pid) && Lives(run(last), process) && Inspected(run, pid, seen, polled, done, botGroup)
    ensures Pinned(run, pid, process, first, last, botGroup)
  {
    HeldThroughout(run, pid, process, first, last);
    hide Lawful, Lives, Taken, Seen;
    TakenAbout(run, pid, process, seen.state, seen.early, first, last);
    TakenAbout(run, pid, process, seen.state, seen.late, first, last);
    assert About(run, pid, process, seen, first, last, botGroup);
  }

  ghost predicate Entitled(w: World, peer: Credentials, process: Identity, botGroup: string -> bool) {
    && peer.pid > 1 && peer.uid != 0 && Alive(w, process, peer.pid) && w.mainPid == peer.pid && Trusted(w.bot)
    && w.states[process].executable == BOT_EXECUTABLE_PATH && botGroup(w.states[process].cgroup)
  }

  lemma HeldThroughout(run: Run, pid: Pid, process: Identity, first: nat, last: nat)
    requires Lawful(run) && first <= last && Alive(run(first), process, pid) && Lives(run(last), process)
    ensures forall t | first <= t <= last :: Alive(run(t), process, pid)
  {
    forall t | first <= t <= last ensures Alive(run(t), process, pid) {
      assert Lives(run(first), process);
      assert Lives(run(t), process);
      var number :| Alive(run(t), process, number);
      assert number == pid;
    }
  }

  lemma TakenAbout(run: Run, pid: Pid, process: Identity, s: State, times: (nat, nat, nat), first: nat, last: nat)
    requires Taken(run, pid, s, times) && first <= times.0 <= times.1 <= times.2 <= last
    requires forall t | first <= t <= last :: Alive(run(t), process, pid)
    ensures Seen(run, process, s, times)
  {
    assert Alive(run(times.0), process, pid) && Alive(run(times.1), process, pid) && Alive(run(times.2), process, pid);
  }
}
