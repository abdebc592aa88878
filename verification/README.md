# Host isolation of the Webex account bot: a verified model

The bot hands a model-driven run to a root launcher, which executes it in a sealed,
short-lived workspace. This project models the half of the program that keeps that safe and
proves what it is for.

Failures are part of every model: a file-system call consults an oracle that may make it
fail at any point, so what a method promises on every return holds after every prefix of
its steps. Every clean-up records the numbers of its calls, so that a leftover, or a report
of one, can be traced to a call that failed within a clean-up. Other processes are part of it too: where the program reads files or processes
that others may change, the world is a function of time and every call happens at some
later instant.

- `WorkspaceTree`, `WorkspaceConsumer`, `TreeRemoval`, `VerifiedCopy`, `WorkspaceLifecycle`:
  a run's tree moves from pending through quarantine and staging to ready and consumed.
  The recursive copy reads every file twice while others may write it. Copy, both
  validators, the post-order grant, removal and the two armed guards are imperative; what
  they accept and leave behind is stated exactly.
- `ActivationSnapshot`: many files are read one after another, then all re-checked. Success
  refines a check done at one instant.
- `RenewalProtocol`: receipt transaction and reboot challenge over runs of prepare, renew,
  crash, reboot, removal and artifact change.
- `Supervisor`, `TimeBudgets`, `AttemptLease`: the supervision loop, the nesting of its
  timers in the client's, and of the client's in the lease a configuration must grant.
- `EventStream`, `ShellQuoting`, `CanaryFixtures`: the acceptor of the canary's event
  stream against a grammar, and the quoting of its command against the rules of section 2.2
  of the POSIX Shell Command Language.
- `JsonText`, `LauncherProtocol`: UTF-8 and JSON text, frames, bounded responses.
- `Capabilities`, `PeerAuthorisation`, `FixtureGuard`: dropping capabilities, authorising
  the caller in spite of reused process numbers, rolling back half-made fixtures.

Findings, where the code does less than one might expect:

- The saturating page count of the lease check is one short for limits above
  18446744073709551600 messages; up to there it is exact (`AttemptLease.PageRequestsExactly`).
  A room past that limit is accepted with too short a lease exactly when what it needs,
  less one minute, is below the largest 64-bit number, and the global settings ask for less
  than it needs and than that number (`AttemptLease.UndercountedExactly`,
  `AttemptLease.UndercountAccepted`).
- The filter of the command renderer lets a single quote through; the observed command
  stands for the script exactly when there is none (`ShellQuoting.EventReadsBackExactly`,
  `ShellQuoting.FilterAloneIsNotEnough`). The fixture validators exclude it
  (`CanaryFixtures.RenderedReadsBack`).
- The end of prompt delivery does not look at the deadline, so the supervisor may need two
  polls after it. One late poll is enough, for all timeouts in whole seconds, exactly when
  sleeps are never late at all (`Supervisor.OnePollExactly`); in general the last look comes
  up to one millisecond short of two late polls after the deadline, and that is reached
  (`Supervisor.LastLookInTime`, `Supervisor.LastLookReached`). The launcher answers before
  its client gives up as long as no sleep is late by more than 22.25 s, and with any greater
  lateness there is, for every timeout, a schedule on which it does not
  (`TimeBudgets.ServeExecution`, `TimeBudgets.SlowestService`).
- A renewal that cannot take its lock fails with the receipt untouched, and the receipt is
  still accepted (`RenewalProtocol.RefusedButStanding`). Apart from these two calls, a
  failed renewal leaves a receipt only if a call of its last removal failed
  (`RenewalProtocol.Machine.Renew`).
- A commit measures three times before it writes: against the candidate, and twice for the
  receipt. It puts a receipt for artifacts `b` in place exactly when nothing fails or stops up
  to the rename, the first measurement finds the candidate's artifacts and the second and the
  third find `b` (`RenewalProtocol.Machine.TryCommit`). If `b` is something else, a crash before the
  removal, or a fault in it, leaves a complete receipt for it, and the next check accepts it
  although no challenge for `b` was ever written (`RenewalProtocol.SwapDuringCommit`). Over
  whole runs, every receipt a renewal or a check answers with has been earned by a reboot,
  except these stray ones (`RenewalProtocol.Machine.Commit`, `RenewalProtocol.Machine.Run`).
- A set-up that fails without a failed call in the rollback leaves something exactly when
  nothing had failed until a fixture, created and filled, was to be recorded: then that one
  stays. Directories that hold it stay with it and are reported, the fixture alone is not
  (`FixtureGuard.SetUp`, `FixtureGuard.LeftSilently`).
- A workspace guard stays armed when the synchronisation behind its removal fails, although
  the tree is gone; with the tree gone, a clean-up fails exactly when its last call did
  (`WorkspaceLifecycle.WorkspaceGuard.Cleanup`, `WorkspaceLifecycle.GoneButArmed`).

`dafny verify dfyconfig.toml` checks the whole project.

## Model

| member | source | states |
|---|---|---|
| WorkspaceTree.ListDirectory | src/input_sealer.rs:1026-1082 | a listing succeeds exactly when names are distinct, there are no more than the cap and no call failed |
| WorkspaceTree.CopyFile | src/input_sealer.rs:819-888 | a file is copied exactly when its metadata is allowed, both passes over it deliver the announced number of the same bytes, these fit the running total, and no call failed; the copy is a fresh 0400 file with the bytes of both passes |
| WorkspaceTree.WriteTarget | src/input_sealer.rs:851-872 | the target file gets what both passes delivered, whoever writes the source meanwhile; a failure leaves at most the announced size |
| WorkspaceTree.EnterDirectory | src/input_sealer.rs:736-758 | a directory is entered exactly when its metadata is allowed, the depth limit is not reached and its own entry count fits what remains |
| WorkspaceTree.CopyDirectory | src/input_sealer.rs:726-816 | per-directory caps and running counters accept exactly the trees whose totals, depth, bytes, names, types and owners are allowed and whose files deliver the same twice; success is a sealed copy of fresh inodes in which every file holds what both passes delivered, and every return leaves a removable part of such a copy with every directory 0700 or 0500 |
| WorkspaceTree.CopyEntries | src/input_sealer.rs:750-816 | the same for the entries of one directory in order; on failure the target holds mirrors of the first entries, and of the last one reached a part |
| WorkspaceTree.QuiescentMirror | src/input_sealer.rs:726-816 | of a tree in which nobody writes, the copy has the same names and the same bytes |
| WorkspaceTree.FreshInodesDistinct | src/input_sealer.rs:768-888 | the inodes of a sealed copy are pairwise distinct and all allocated during the copy |
| WorkspaceTree.PrefixWithinWhole | src/input_sealer.rs:736-758 | what has been copied of a directory never exceeds the measure of the whole, which is why the running check is the whole check |
| WorkspaceTree.EntriesCounted | src/input_sealer.rs:1026-1082 | the per-directory cap never rejects a directory that the total allows |
| VerifiedCopy.CopyExactWithDigest | src/input_sealer.rs:890-915 | a digest is given exactly when the reads deliver the announced number of bytes, then nothing more, and every write succeeds; it is of those bytes, which the target holds |
| VerifiedCopy.HashExactSource | src/input_sealer.rs:917-940 | the same for the second pass |
| VerifiedCopy.RejectSourceGrowth | src/input_sealer.rs:942-948 | one more byte than announced is a failure |
| VerifiedCopy.CopyTwice | src/input_sealer.rs:851-872 | whatever is written between reads, a copy is kept exactly when both passes deliver the same announced number of bytes and every write succeeds, and it equals the bytes of both |
| VerifiedCopy.QuietDelivered | src/input_sealer.rs:851-872 | a file nobody writes delivers its bytes twice, whatever the sizes of the reads |
| TreeRemoval.RemoveTree | src/input_sealer.rs:1156-1188 | removal terminates, removes everything exactly when every directory has at most 8192 entries and no call fails, and otherwise leaves a part of the same tree |
| TreeRemoval.RemoveTreeAt | src/input_sealer.rs:1156-1188 | only the named entry of the parent is touched |
| TreeRemoval.RemoveOwnedTreeAt | src/input_sealer.rs:666-678 | an object with another identity than the recorded one is never changed or removed |
| TreeRemoval.AcceptedIsRemovable | src/input_sealer.rs:726-816 | every tree the sealer accepts within 8192 entries can be removed |
| TreeRemoval.ConsumedIsRemovable | src/isolated_execution.rs:1035-1118 | so can every tree of distinct names that the consumer accepts |
| TreeRemoval.StepIsRemovable | src/isolated_execution.rs:1132-1226 | granting access, at whatever step it stops, leaves a removable tree removable |
| TreeRemoval.RemainsRemovable | src/input_sealer.rs:1156-1188 | what a failed removal leaves can be removed by the next one |
| WorkspaceConsumer.ValidateDirectory | src/isolated_execution.rs:1035-1118 | accepts exactly the trees with the modes, owner, single links and limits of the access asked for |
| WorkspaceConsumer.GrantDirectory | src/isolated_execution.rs:1132-1226 | the post-order grant succeeds exactly on a valid private tree without fault, keeps contents, and at every failing return a directory open to the group has a fully granted subtree; so the group reaches anything only once the whole tree is granted (`WorkspaceConsumer.ReachableOnlyWhenGranted`) |
| WorkspaceConsumer.OpenToGroup | src/isolated_execution.rs:1222-1226 | the final chmod of a directory opens it only after its whole subtree |
| WorkspaceConsumer.PrivateIsGrantSafe | src/isolated_execution.rs:1239-1254 | a private tree shows nothing to the group |
| WorkspaceConsumer.PublishedIsAccepted | src/isolated_execution.rs:1017-1118 | every tree the sealer publishes passes the consumer's private validation |
| WorkspaceConsumer.GrantedIsAccepted | src/isolated_execution.rs:921-945 | a granted tree passes the group-readable validation |
| WorkspaceLifecycle.StagingIsNoRun | src/input_sealer.rs:690-724 | a staging name is never a run's name |
| WorkspaceLifecycle.WorkspaceGuard.Cleanup | src/input_sealer.rs:57-83 | disarms only when the owned tree is gone and touches no other entry; an owned removable tree stays only if a call of this clean-up failed, and once it is gone the answer is that of the last call |
| WorkspaceLifecycle.GoneButArmed | src/input_sealer.rs:61-71 | a run in which the tree is gone and the guard is still armed |
| WorkspaceLifecycle.WorkspaceGuard.Drop | src/isolated_execution.rs:182-210 | an armed guard that reports nothing has removed its tree, and of an owned removable tree it reports only a call that failed here |
| WorkspaceLifecycle.WorkspaceGuard.CleanupTwice | src/isolated_execution.rs:182-210 | a clean-up and then a drop: what is left of an owned removable tree has outlived a failed call in both |
| WorkspaceLifecycle.Host.StageAndPublish | src/input_sealer.rs:388-461 | a failure leaves at most the one staged or published tree, which can be removed; an existing destination is never replaced |
| WorkspaceLifecycle.Host.CleanupTarget | src/input_sealer.rs:462-484 | success restores the directory, and with the object still in place only a failed call of this clean-up prevents it |
| WorkspaceLifecycle.Host.CleanupSource | src/input_sealer.rs:450-461 | the same for the quarantined source |
| WorkspaceLifecycle.Host.Seal | src/input_sealer.rs:308-521 | every return leaves the tree untouched in pending, in ready under one armed guard, or gone; anything else, and any report of it, is due to a call that failed within a clean-up or to a source that was replaced or cannot be removed; without a fault an acceptable tree is sealed |
| WorkspaceLifecycle.Host.GrantConsumed | src/isolated_execution.rs:921-945 | at every return a tree the group can reach has been granted as a whole |
| WorkspaceLifecycle.Host.Consume | src/isolated_execution.rs:828-945 | kept under one armed guard with group access, or gone; a leftover needs a failed call in every attempt to remove it, a report one in some attempt, and no leftover is open to the group before the whole grant |
| WorkspaceLifecycle.Host.FinishConsumption | src/isolated_execution.rs:948-962 | a failed preparation removes the consumed tree, unless a call failed in both attempts; a report needs one failed call in them |
| WorkspaceLifecycle.Host.Execute | src/isolated_execution.rs:423-461 | after a whole execution, with the plan built or not, nothing of the run is left in quarantine, ready or consumed and nothing reported, unless a call failed within a clean-up of this execution or the source was replaced or cannot be removed; other runs are untouched |
| WorkspaceLifecycle.Host.RunAndClean | src/isolated_execution.rs:448-459 | a clean-up that fails hides every other outcome, and only failed calls in both attempts leave the workspace |
| WorkspaceLifecycle.RolledBack | src/input_sealer.rs:462-520 | the rollback of a failed publication restores the ready directory |
| ActivationSnapshot.StampedNeverRegains | src/activation.rs:387-400 | a file system whose changes carry growing stamps never shows an earlier identity again |
| ActivationSnapshot.ReadToEnd | src/activation.rs:1230-1246 | a bounded read returns all bytes of the open file if they stay the same meanwhile |
| ActivationSnapshot.OpenTrusted | src/activation.rs:1085-1106 | the opened handle is the file that was looked at, if its identity holds until later |
| ActivationSnapshot.ReadTrusted | src/activation.rs:911-943 | success gives bytes and identity that one look at one instant would have accepted |
| ActivationSnapshot.Recheck | src/activation.rs:1188-1201 | an unchanged identity means the file held at every instant since it was read |
| ActivationSnapshot.LoadBinding | src/activation.rs:618-697 | the readings fix the binding; with nothing changing it is the measurement itself |
| ActivationSnapshot.CheckProcess | src/activation.rs:971-1028 | the running executable is the measured one at the snapshot's instant |
| ActivationSnapshot.VerifyCandidate | src/activation.rs:455-472 | a candidate is the measurement of one instant |
| ActivationSnapshot.VerifyActivation | src/activation.rs:432-453 | whatever other processes do between the calls, success means one instant at which receipt, manifest, image, four executables and source manifest together passed the whole check; with nothing changing it succeeds exactly when that check does |
| ActivationSnapshot.ValidCanariesExactly | src/activation.rs:842-859 | the three tests accept exactly the required set with every canary true |
| RenewalProtocol.Slot.Install | src/activation.rs:1248-1311 | at every crash point the receipt path shows the old content or the whole new one; success is synchronised |
| RenewalProtocol.Slot.InstallPrivate | src/activation_canary.rs:1376-1415 | the same for the private writer, which can fail after its rename |
| RenewalProtocol.Slot.Remove | src/activation.rs:566-586 | success, exactly when no call fails or stops, leaves no receipt; failure, exactly when a call fails, and crash leave the old one or none |
| RenewalProtocol.Machine.WriteChallenge | src/activation_canary.rs:1282-1306 | at most one challenge is written, for the current boot; success leaves its marker standing |
| RenewalProtocol.Machine.VerifyChallenge | src/activation_canary.rs:1239-1280 | passing means a challenge for the same artifacts was written in an earlier boot, and leaves one validated for this boot with its marker |
| RenewalProtocol.Machine.VerifyReceipt | src/activation.rs:432-453 | success means a complete receipt of this boot for artifacts present at one instant of the call |
| RenewalProtocol.Machine.TryCommit | src/activation.rs:525-534 | it puts a receipt in place exactly when, without a fault up to the rename, the first measurement finds the expected artifacts and the next two agree, and the receipt is for what they agree on; success needs the last comparison as well |
| RenewalProtocol.Machine.Commit | src/activation.rs:520-543 | success means the binding equals the candidate; failure leaves no receipt unless a call of the removal failed; whatever is left otherwise is the old receipt, one for the candidate, or a stray one for artifacts on which the second and third measurement agreed against the first |
| RenewalProtocol.Machine.Renew | src/activation_canary.rs:124-147 | success means four passed canaries, a receipt for the candidate and an earlier boot with a challenge for the same artifacts; whatever else fails, no receipt is left, unless a call for the lock failed or a call of the last removal |
| RenewalProtocol.Machine.EnsureReceipt | src/activation_canary.rs:96-122 | a new receipt appears only through a renewal, and failures are those of a renewal |
| RenewalProtocol.Machine.Prepare | src/activation_canary.rs:1147-1197 | with a challenge present, or without apply, nothing is written; otherwise success leaves one pending challenge with its marker |
| RenewalProtocol.Machine.Reboot | src/activation_canary.rs:43-46 | a reboot clears receipt and markers and may undo unsynchronised renames, and keeps every invariant |
| RenewalProtocol.Machine.Run | src/activation_canary.rs:96-147 | over every run of events, every renewal and every accepted receipt was preceded by a pending challenge for the same artifacts written in an earlier boot, except stray receipts, each of which comes from one commit whose second and third measurement agreed against the first |
| RenewalProtocol.CrossedFromPending | src/activation_canary.rs:1199-1224 | behind any crossing stands a challenge that was pending when it was written |
| RenewalProtocol.JustifiedSnoc | src/activation_canary.rs:1207-1214 | a challenge that is pending, or validated for its own boot after an earlier one, keeps the whole log justified |
| RenewalProtocol.PrepareRebootRenew | src/activation_canary.rs:149-170 | without faults, prepare, reboot and renew gives a receipt |
| RenewalProtocol.SwapDuringCommit | src/activation.rs:520-543 | a run in which a crash leaves a receipt for swapped artifacts that the next check accepts |
| RenewalProtocol.RefusedButStanding | src/activation_canary.rs:124-147 | a renewal that cannot take its lock leaves a receipt that is still accepted |
| Supervisor.Unit.Watching | src/isolated_execution.rs:1590-1612 | the loop stops at the first round that decides |
| Supervisor.WatchStops | src/isolated_execution.rs:1641-1691 | for every schedule the loop is out after a round that began before the deadline, or after its only one, for the reason that round shows |
| Supervisor.WatchMissesNothing | src/isolated_execution.rs:1641-1691 | no event before the deciding round was overlooked |
| Supervisor.Unit.TerminateUnit | src/isolated_execution.rs:1825-1882 | five bounded waits at most, each of which may be late or fail, taking exactly as long as these take; success exactly when the stop command started, was waited for in time and without error, and succeeded |
| Supervisor.Unit.Await | src/isolated_execution.rs:1641-1722 | either the exit was seen or the unit terminated once, with the answer the first event calls for |
| Supervisor.Unit.Run | src/isolated_execution.rs:1547-1723 | once the pipes are taken, every return saw the child exit or ran termination exactly once; completion needs a successful exit seen before the deadline; the answer follows the first deciding events |
| Supervisor.LastLookInTime | src/isolated_execution.rs:1590-1691 | the last round ends less than two late polls after the deadline |
| Supervisor.LastLookReached | src/isolated_execution.rs:1590-1691 | for every timeout in whole seconds a schedule reaches that bound to the millisecond |
| Supervisor.LastLookOnGrid | src/isolated_execution.rs:1590-1691 | with exact sleeps, one poll |
| Supervisor.OnePollExactly | src/isolated_execution.rs:1590-1691 | one late poll is enough for all schedules and whole seconds exactly when no sleep is late |
| Supervisor.ReadLimited | src/isolated_execution.rs:1917-1935 | exactly the first bytes up to the limit are kept, and truncation is reported exactly when there were more |
| TimeBudgets.ServeExecution | src/isolated_execution.rs:423-461 | the serving time is the sum of preparation, the supervised run and workspace clean-up, each up to its limit, and stays below the client's response timeout for every timeout from 1 to 3600 s and sleeps up to 22.25 s late |
| TimeBudgets.SlowestService | src/launcher_protocol.rs:17-72 | for every timeout there is a run that is answered in time exactly when sleeps are at most 22.25 s late |
| TimeBudgets.Exchange | src/launcher_client.rs:274-315 | one exchange lasts until its last step or the first that is given up, and succeeds exactly within its three timers |
| TimeBudgets.IsolatedAttempt | src/runner.rs:239-289 | preflight, staging, execution and pending clean-up last as long as they take together, or to the first that is given up: at most the timeout plus the declared overhead |
| AttemptLease.SaturatedComparison | src/config.rs:285-309 | saturation never changes the comparison with the lease |
| AttemptLease.SkippedRoomsFit | src/config.rs:254-282 | rooms the loop skips are covered by the global check |
| AttemptLease.ValidateLease | src/config.rs:254-283 | accepts everything that fits, and only what fits when page counts are exact, for the global settings and every room over unbounded integers; page counts are exact exactly up to 18446744073709551600 items (`AttemptLease.PageRequestsExactly`, `AttemptLease.RequestsExactly`) |
| AttemptLease.UndercountedExactly | src/config.rs:254-309 | a room is accepted with too short a lease, for some lease, exactly when its page counts saturate, its need less a minute fits 64 bits, and the global settings ask for less |
| AttemptLease.UndercountAccepted | src/config.rs:826-829 | one message past the exact range a configuration is accepted with too short a lease |
| AttemptLease.AcceptedAttemptEndsInTime | src/config.rs:254-309 | whatever the helpers, requests and steps of an isolated attempt take, each given up at its limit, an attempt in a configuration that the check accepts ends before its lease |
| AttemptLease.RunHelpers | src/main.rs:546-580 | prefetching runs its helpers one after the other up to the first that is out of time |
| EventStream.RejectDuplicates | src/canary_exec.rs:400-493 | succeeds exactly when no object at any depth has a key twice |
| EventStream.DecodeExactly | src/canary_exec.rs:281-398 | a line decodes to an event exactly when its object has that event's fields and no others |
| EventStream.CollectChecks | src/canary_protocol.rs:247-279 | the visitor collects the checks |
| EventStream.ChecksExactly | src/canary_protocol.rs:262-274 | the map holds every entry and nothing else, and exists exactly when no name repeats |
| EventStream.RequiredNamesExactly | src/canary_protocol.rs:299-326 | the three tests accept exactly the required names |
| EventStream.FoldAccepts | src/canary_exec.rs:101-234 | the state machine finishes with a report exactly on the streams of the grammar |
| EventStream.SplitJoins | src/canary_exec.rs:107-110 | cutting into lines loses nothing |
| EventStream.LinesUnique | src/canary_exec.rs:107-110 | there is only one way to cut a text into lines |
| EventStream.ParseLines | src/canary_exec.rs:101-234 | the loop answers with a report exactly when the lines read as an accepted stream with that report |
| EventStream.ParseStream | src/canary_exec.rs:88-234 | the parser accepts exactly the bounded, well framed inputs of the grammar and returns the report of their one command |
| ShellQuoting.ScriptReadsBack | src/canary_exec.rs:54-69 | whatever passes the filter is read back as exec and the same words |
| ShellQuoting.ReadLoses | src/canary_exec.rs:70 | reading never lengthens text, and an unquoted single quote shortens it |
| ShellQuoting.EventReadsBackExactly | src/canary_exec.rs:70 | the observed command reads back as the script exactly when the script has no single quote |
| ShellQuoting.FilterAloneIsNotEnough | src/canary_exec.rs:54-70 | an argument that passes the filter and breaks the observed command |
| CanaryFixtures.AddressSafe | src/canary_protocol.rs:397-415 | every printed socket address, with compressed segments, mapped addresses and scopes, is harmless to the shell |
| CanaryFixtures.RenderedReadsBack | src/canary_exec.rs:30-86 | for all inputs, validation is exactly what decides rendering, and script and observed command read back |
| CanaryFixtures.ParseCanaryStream | src/canary_exec.rs:88-107 | the whole acceptance: valid inputs and a stream of the grammar for the command they render to |
| JsonText.Utf8RoundTrip | src/launcher_protocol.rs:533-550 | decoding UTF-8 undoes encoding for every text |
| JsonText.StringReads | src/launcher_protocol.rs:533-550 | reading an escaped string gives the string back |
| JsonText.ValueReads | src/launcher_protocol.rs:552-577 | reading a printed value gives the value back and stops after it |
| LauncherProtocol.MessageBounded | src/launcher_protocol.rs:421-439 | every bounded message is valid, and bounding is idempotent |
| LauncherProtocol.CompletedValid | src/launcher_protocol.rs:241-256 | refused only for a bad run id or limit; valid, and the output is the longest allowed prefix |
| LauncherProtocol.RejectedValid | src/launcher_protocol.rs:277-293 | refused only for a bad run id, whatever the message |
| LauncherProtocol.RequestReads | src/launcher_protocol.rs:79-168 | the JSON form of a request reads back as the request |
| LauncherProtocol.ResponseReads | src/launcher_protocol.rs:172-328 | the same for responses |
| LauncherProtocol.EscapedSize | src/launcher_protocol.rs:533-550 | escaping and encoding never take more than the worst character allows |
| LauncherProtocol.RequestFits | src/launcher_protocol.rs:101-157 | every valid request encodes within its limit |
| LauncherProtocol.ResponseFits | src/launcher_protocol.rs:203-308 | every valid response encodes within its limit |
| LauncherProtocol.FrameExactly | src/launcher_protocol.rs:533-577 | a frame decodes to a payload exactly when it is the frame of that payload |
| LauncherProtocol.RequestRoundTrip | src/launcher_protocol.rs:370-389 | a request encodes exactly when it is valid, and then arrives as it was |
| LauncherProtocol.ResponseRoundTrip | src/launcher_protocol.rs:391-410 | the same for responses |
| LauncherProtocol.BoundedAnswersArrive | src/launcher_protocol.rs:241-293 | whatever a run produced, its bounded answer can be sent and arrives as it was |
| Capabilities.ClearCapability | src/codex_launcher.rs:507-514 | clears one bit of the three sets in place and nothing else |
| Capabilities.OnlyAllowExactly | src/codex_launcher.rs:516-528 | the test with masks holds exactly when every present capability is on the list |
| Capabilities.ClearingEmpties | src/codex_launcher.rs:507-539 | clearing a list empties all sets exactly when they allow nothing but the list, for any list of numbers below 64 |
| Capabilities.Thread.ReadBounding | src/codex_launcher.rs:541-559 | the scan returns the bounding set, and only when the kernel's range ends below 64 |
| Capabilities.Thread.DropEach | src/codex_launcher.rs:215-220 | each drop from the bounding set happens while SETPCAP is effective |
| Capabilities.Thread.DropPeerInspection | src/codex_launcher.rs:181-258 | success leaves all thread sets and the bounding set empty; without faults it succeeds exactly for a thread that holds no more than the two capabilities and can drop them |
| PeerAuthorisation.HeldThroughout | src/codex_launcher.rs:298-325 | a process seen with a number and seen alive later held the number in between |
| PeerAuthorisation.Host.Snapshot | src/codex_launcher.rs:350-361 | three reads, each about whichever process holds the number at its instant |
| PeerAuthorisation.Host.Authorise | src/codex_launcher.rs:289-332 | success means the descriptor's process held the number throughout and every answer was about it; with nothing changing it succeeds exactly for the trusted main process of the bot |
| FixtureGuard.Guard.Track | src/activation_canary.rs:474-491 | records the identity of what is there |
| FixtureGuard.Host.CreateFixture | src/activation_canary.rs:550-622 | a fixture that cannot be filled is taken away again at once, or the error says that this failed |
| FixtureGuard.Guard.Cleanup | src/activation_canary.rs:498-537 | only recorded objects with their recorded identity are removed, and the rollback goes on after a failure: what stays had a failed call of its own, had been replaced, or holds something that stays; when nothing else was added and no call failed all is gone |
| FixtureGuard.Guard.Drop | src/activation_canary.rs:540-548 | an armed guard rolls back or reports, and reports only a failed call of the rollback, a replaced object or something added |
| FixtureGuard.EmptyByNow | src/activation_canary.rs:500 | in reverse order a directory is empty when its turn comes |
| FixtureGuard.MakeAll | src/activation_canary.rs:381-408 | fixtures are made and recorded in order; without a fault exactly when each path is free in its turn, and one is made but not recorded only if recording it failed, or filling it and taking it away again |
| FixtureGuard.SetUp | src/activation_canary.rs:367-417 | without a failed call in the rollback a failed set-up leaves something exactly if a fixture could not be recorded, and then that one and the directories above it; in any case each object that is left outlived a failed call of its own removal, holds something left, or could not be recorded; without a fault it succeeds exactly when all paths can be created, and otherwise changes and reports nothing |
| FixtureGuard.LeftSilently | src/activation_canary.rs:474-491 | a run in which a file stays and nothing is reported |

## Left out

- Devices are not told apart from inodes; a listing keeps the order of the directory instead of sorting names; a tree's contents are values, and only root directories, guards and counters are objects.
- WorkspaceTree.CopyFile: other processes write into files while they are read; they do not add, remove or rename entries while a directory is being walked.
- WorkspaceLifecycle.Host.Execute: does not tell cancellation during preparation from other preparation failures, and treats a failure logged by a guard's drop as reported.
- Supervisor.Unit.Run: the supervision of the runtime canary (src/isolated_execution.rs:1726-1823) has the same loop without a prompt and is not modelled again; captured output is bytes, so lossy decoding, trimming and the character limit are a parameter.
- ActivationSnapshot.VerifyActivation: readlink of the process link, directory ancestry and the flat constants of the manifests are one parameter each or a field of the decoded value; the work budget's deadline is a failing call.
- RenewalProtocol.Machine.Renew: the lifecycle canaries are steps that pass or fail, and the measurement is the instant that `ActivationSnapshot.VerifyCandidate` provides; schema version, codex version and model are constants of the one program that writes them. Nobody else writes the private directories.
- LauncherProtocol.RequestRoundTrip: the reader takes compact text; arrays, white space, signs, fractions and exponents, which the encoder never writes, are not read.
- AttemptLease.AcceptedAttemptEndsInTime: work done between the waits, and ending a helper that is out of time, take no time, as the check itself assumes; attempts without isolation are not modelled.
- AttemptLease.ValidateLease: of a codex patch only the timeout and the isolation mode are modelled, since no other field enters the check; the checks that forbid mixing isolation modes are flat comparisons.
- EventStream.ParseStream: decoding bytes to JSON values and to the raw report is a parameter; numbers are integers or not.
- CanaryFixtures.ParseCanaryStream: the digest of the fixture binding and the parsing of socket addresses are parameters.
- FixtureGuard.Guard.Cleanup: nobody replaces an object between its last look and its removal, in a directory only root can enter.
- FixtureGuard.SetUp: nobody else adds to these directories meanwhile; filling a fixture is one call that may fail, and so is binding a listener.
- Capabilities.Thread.DropPeerInspection: the kernel accepts any reduction of the sets unless the call fails.
- System calls, descriptors, systemd, `systemctl` and the async runtime: only their effects, durations and failures.
- src/canary_host.rs: listener threads and interface enumeration; a connection accepted after the last empty accept is not counted there, so no count is claimed.
- Configuration commands, status reporting, network access, token loading, prompts, error texts and logging.
- The job spool, the runner's local backend and deployment.
