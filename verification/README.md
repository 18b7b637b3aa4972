# Verified model of the Buckit Manager

Buckit Manager installs, operates and migrates MinIO-compatible clusters over SSH and the
admin API. This project models its seven pieces with hard properties in Dafny 4.11 and
proves those properties for all inputs, all runs and all interleavings. `dafny verify
dfyconfig.toml` checks the whole project.

## What is modelled

**Operations.** `Hub.dfy` is the publish/subscribe hub of one task as a class whose methods
are the critical sections under its mutex; the invariant `Valid` ties every subscriber's
channel to a gapless stretch of the published frames. `Orchestrator.dfy` is the manager as a
step relation: dispatches, runs, panics, cancellations, late publishers, shutdown, crashes
and recovery interleave freely, one atomic action at a time. `Agreement.dfy` decides, from
the steps of a run alone, when the stored row and the hub's last snapshot say the same, and
`Settling.dfy` what a run settles on.
`History.dfy` is the persisted bucket as an ordered map. `Stream.dfy` and `Sse.dfy` follow a
frame from the event-stream writer through an arbitrary cut into network chunks to the
browser's parser and tail buffer, and `LiveView.dfy` ties the log view to the hub.

**Cutover and rollback.** `HostOps.dfy` gives the remote steps of one host and the parallel
fan-out of a phase; `Cutover.dfy` and `Rollback.dfy` are the two executors over it, with any
interleaving of hosts, any failing step and cancellation at any time. `CutoverVerdict.dfy`
reads the outcome of a cutover off its steps. `Partition.dfy` decides which hosts are
attempted, `DropIn.dfy` renders the systemd drop-in.

**Root-credential rotation.** `EnvFile.dfy` is the line-preserving env-file editor and
`RawLines.dfy` what it reads from raw text, `Credentials.dfy` what a node's two files resolve
to, `RotationFleet.dfy` the remote files of all nodes with steps that may fail part-way,
`Rotation.dfy` the whole operation.

**MINIO_VOLUMES and the printed configuration.** `Volumes.dfy` and `Affixes.dfy` are the
compressor, `Ellipses.dfy` the meaning of `{lo...hi}`, `Lossless.dfy` the exact condition
under which nothing is lost, `VolumeText.dfy` the rendered value, `ConfigEnv.dfy` the env-file
printer and reader, `VolumeReader.dfy` the redeploy side, `Erasure.dfy` set size and parity,
and `DeployConfig.dfy` the round trips through the printed file. `Decimal.dfy` and `Text.dfy`
hold the library functions they use.

**Order, selection, quoting.** `Collation.dfy`, `PeerSelection.dfy`, `ShellQuote.dfy`.

Loops of the source are methods; each is proved equal to a function, or given its result
outright, and the lemmas are about those functions and the preserved invariants.

## Assumptions

- A remote step that reports success took effect, also when its command ends in `|| true`;
  one that fails may have done any part of it, and does nothing after it returned.
- ULIDs are fresh, across restarts too, and their order is the order of their numbers.
- A store update that reports an error changed nothing.
- `strings.ToLower` neither empties a run of non-digits nor moves its first byte across the
  digits (`Collation.KeepsClass`; ASCII lower case satisfies it).
- JSON encodings hold no line break and decode to what was encoded (`EventStream.Codec`).
- `%q` leaves printable characters other than quote and backslash alone, and writes no line
  break (`ConfigEnv.Runes`).
- The ellipses library expands an argument without braces, or with one decimal range, as
  `Ellipses.Expand` says (`VolumeReader.Expands`); of others nothing is assumed.
- Hosts of one cutover or rollback have distinct ids, as do the nodes of one rotation.
- `systemctl` tells the truth when it answers whether a service is active or a unit loaded.

## Where the code and its description differ

- A manager that shuts down before a run closes its hub leaves the hub's last snapshot
  unfinished while the row says canceled, because `CloseAfterTerminal` does nothing on a hub
  that is shut (`ShutdownDisagrees`).
- A goroutine of an executor that is not waited for (internal/deploy/executor.go:101-121) can
  change the host statuses in the grace period, behind the stored result
  (`LatePublishDisagrees`). As long as no publisher sets the operation's state, row and hub
  differ only after such a shutdown, or when the last late change leaves another detail, note,
  summary or host status (`AgreesUnlessShutOrChanged`).
- `CloseAfterTerminal` is documented as a no-op when called again. It is one exactly when the
  hub is closed: inside the grace period it publishes again and leaves a second teardown.
- The manager's `Shutdown` may be called once: a second call closes a closed channel.
- A failed normalisation restart restores only the nodes already restarted and the failing
  one; later nodes keep the normalised files (`Outcome.NormalizationNotLoaded`).
- Both write phases use the same backup names, so a node that was normalised ends with copies
  of its normalised files and none of those it started with (`Rotation.Accounts`,
  `RotationFleet.HoldsStart`).
- A node whose `MINIO_CONFIG_ENV_FILE` is `/etc/default/minio` loses its credentials in a
  rotation, because that file is written last without them (`PasswordWriteResolves`,
  `OneFileExists`).
- An env file holding the line `BMCFG` ends its here-document early (`HereDocStoresBody`), and
  nothing in the preflight refuses it (`MarkedFileExists`).
- Compression of host or path names decides on padding from the first name only, so it can
  lose zeros: `d110, d109` becomes `d1{9...10}` (`LossyExample`, `CompressionLossless`).
- A failed engine flip at the end of a cutover returns an error with every attempted host on
  Buckit and no rollback (`Outcome.CommitFailed`).
- The drop-in takes an unset `Group=` of Buckit's unit for root, where systemd uses the
  user's own group (`IdentityPreserved` gives the exact condition, `GroupLost` the failure).
  So it may write nothing although the groups differ, and write lines although the units agree
  (`EmptyThoughGroupsDiffer`, `WrittenThoughAgreed`, with the exact condition in
  `EmptyIffAgreed`).
- The event-stream parser normalises a line end again with every chunk: behind a CR a CR LF
  pair depends on where the text was cut (`CutChangesFrames`; `SeenWholeExactly` gives the
  exact condition). The server never writes a CR.
- The log view of an operation keeps its lines when a snapshot without events arrives
  (`TailExact`, `StaleLines`).

## Model

| member | source | states |
|---|---|---|
| `TaskHub.ServedExtends` | internal/tasks/hub.go:180-190 | publishing one more frame leaves every subscriber's past frames a gapless stretch of the log, and extends it for those served to the end |
| `TaskHub.Subscription.TrySend` | internal/tasks/hub.go:182-183 | a send never blocks: it is refused exactly when the buffer is full, and only an open channel is sent to |
| `TaskHub.Subscription.Close` | internal/tasks/hub.go:187 | only an open channel is closed |
| `TaskHub.Hub.Subscribe` | internal/tasks/hub.go:62-77 | a new subscriber's channel holds exactly the current snapshot; on a closed hub it is closed and registered nowhere |
| `TaskHub.Hub.Unsubscribe` | internal/tasks/hub.go:79-87 | may be called any number of times; removes and closes once, other subscribers unchanged |
| `TaskHub.Hub.Receive` | internal/tasks/hub.go:55-62 | taking a frame off a channel keeps every frame ever sent to it |
| `TaskHub.Hub.Deliver` | internal/tasks/hub.go:180-190 | the fan-out loop serves exactly the subscribers with room and drops and closes exactly the others |
| `TaskHub.Hub.Fanout` | internal/tasks/hub.go:180-190 | the frame joins the log; every remaining subscriber was served up to it, every dropped one up to the frame before it |
| `TaskHub.Hub.PublishState` | internal/tasks/hub.go:100-108 | on an open hub the snapshot is replaced and published, on a closed one nothing happens; the hub invariant holds |
| `TaskHub.Hub.MutateState` | internal/tasks/hub.go:112-120 | the same for an in-place change |
| `TaskHub.Hub.PublishEvent` | internal/tasks/hub.go:124-136 | one event, stamped if it has no time, joins the snapshot and the log |
| `TaskHub.Hub.CloseAfterTerminal` | internal/tasks/hub.go:141-158 | records and publishes the final snapshot and leaves one teardown; a no-op exactly when the hub is closed |
| `TaskHub.Hub.Teardown` | internal/tasks/hub.go:151-157 | closes every remaining channel and loses no frame already sent |
| `TaskHub.Hub.Shutdown` | internal/tasks/hub.go:161-164 | the same at process shutdown, at most once |
| `TaskHub.Hub.CloseAll` | internal/tasks/hub.go:166-177 | each open channel is closed once, afterwards none is registered |
| `TaskHub.Hub.LiveReplay` | internal/tasks/hub.go:62-190 | in every reachable hub, folding a live subscriber's frames from its first snapshot gives the current state |
| `TaskHub.Hub.Replay` | internal/tasks/hub.go:62-190 | any subscriber, dropped ones too, saw a gapless run of frames whose fold is the state after the last of them |
| `TaskHub.Hub.DroppedReplay` | internal/tasks/hub.go:180-190 | what a subscriber dropped by a frame was sent folds to the state just before that frame |
| `Progress.FoldAppend` | internal/tasks/hub.go:97-136 | folding frames in two parts is folding them at once |
| `History.Store.Insert` | internal/tasks/history.go:38-56 | a taken id is refused, otherwise exactly one row is added |
| `History.Store.Update` | internal/tasks/history.go:60-82 | exactly the named row changes, by the mutator; a missing row is refused |
| `History.Store.First` | internal/tasks/history.go:179-180 | the smallest id |
| `History.Store.Sweep` | internal/tasks/history.go:167-190 | the newest rows up to the cap remain unchanged, all older ones go |
| `History.Store.Clear` | internal/tasks/history.go:130-164 | exactly the rows older than the time go, all of them for a zero time |
| `History.Store.List` | internal/tasks/history.go:102-126 | exactly the matching rows, newest first, cut only at the limit and then to the newest |
| `History.RefusedExactly` | internal/tasks/history.go:192-206 | a row is refused exactly for another status or cluster, or a time outside the two ends, both of which count as inside |
| `History.Greatest` | internal/tasks/history.go:109-110 | the largest id |
| `History.Store.RecoverInFlight` | internal/tasks/recovery.go:15-38 | on success no row is running and every running row was failed with the recovery note; other rows unchanged, also on failure |
| `Orchestrator.LocksKept` | internal/tasks/orchestrator.go:60-110 | every step keeps: a lock is held exactly by the one dispatch or run in flight on its cluster |
| `Orchestrator.ThreadKept` | internal/tasks/orchestrator.go:60-169 | every step keeps each thread's id its own and its row in step with it |
| `Orchestrator.RunKept` | internal/tasks/orchestrator.go:109-169 | every step keeps: what a run closed its hub with is terminal and its own, and its settled row holds exactly that |
| `Orchestrator.RowKept` | internal/tasks/orchestrator.go:60-169 | every step keeps each running row with its live run, or on the recovery list |
| `Orchestrator.Kept` | internal/tasks/orchestrator.go:60-284 | every step of every goroutine keeps the whole invariant |
| `Orchestrator.InvAlways` | internal/tasks/orchestrator.go:60-284 | the invariant holds after every run of steps |
| `Orchestrator.OneOperationPerCluster` | internal/tasks/orchestrator.go:60-169 | in every interleaving locks match in-flight work exactly and, while updates succeed, each cluster has at most one running row, with its live run holding the lock |
| `Orchestrator.RowSettled` | internal/tasks/orchestrator.go:145-152 | one step never changes a finished row nor brings a deleted one back |
| `Orchestrator.SettledForever` | internal/tasks/orchestrator.go:145-152 | whatever follows, crashes included, a finished row stays as it is until deleted, and a deleted row never returns |
| `Agreement.ShowsAlways` | internal/tasks/hub.go:100-178 | after every run of steps a registered hub holds exactly what the steps that took effect put there, and is open exactly as they left it |
| `Agreement.AgreesExactly` | internal/tasks/orchestrator.go:128-158 | a finished run's row agrees in state, note and result with its hub's last snapshot if and only if that is the one the run closed it with, or the last state published has the stored result |
| `Agreement.StoredResultIsFinalSnapshot` | internal/tasks/orchestrator.go:128-158 | they agree if the manager did not shut the hub before the run closed it and every state published after the close has the stored result |
| `Agreement.AgreesUnlessShutOrChanged` | internal/tasks/orchestrator.go:128-158 | for publishers that never set the operation's state, outliving the executor or not, they agree if and only if no shutdown came before the close and the last state published between the close and the tear-down, if any, has the stored detail, note, summary and host statuses |
| `Agreement.StateShownAlways` | internal/tasks/hub.go:112-120 | under such publishers the hub reads running until its run closes it, then what the run settled on, and running for good when it was shut before |
| `Agreement.QuietAgrees` | internal/tasks/orchestrator.go:128-158 | they agree for every executor that publishes no state once it returned or panicked, if no shutdown comes before the close |
| `Agreement.QuietAgreesUnlessShut` | internal/tasks/orchestrator.go:128-158 | if it moreover never sets the operation's state, they agree if and only if no shutdown comes before the close |
| `Agreement.ReturnsFirst` | internal/tasks/orchestrator.go:123-158 | a run closes its hub only after its executor returned or panicked |
| `Agreement.ShutdownDisagrees` | internal/tasks/orchestrator.go:247-259 | a run in which nothing is published and every update succeeds, yet the manager's shutdown leaves the row canceled and the hub running |
| `Agreement.LatePublishDisagrees` | internal/deploy/executor.go:101-121 | a run in which a step event drained after the close changes a host status: row and hub both read succeeded and differ |
| `Agreement.LateRunNeverSetsState` | internal/deploy/executor.go:108-113 | no publisher of that run sets the operation's state |
| `Orchestrator.Recovers` | internal/tasks/recovery.go:15-38 | from any moment, a crash and a restart can reach service again with every running row failed by recovery and every other row untouched |
| `Orchestrator.RecoverAll` | internal/tasks/recovery.go:21-36 | the recovery loop ends with an empty list and exactly the listed rows repaired |
| `Orchestrator.RepairedWheneverUp` | internal/tasks/recovery.go:15-38 | for all runs: when a process that crashed first serves again, crashes and failures during recovery included, every row that was running reads failed with the recovery note and no result of a run, its cluster and time kept, and every other row is untouched |
| `Orchestrator.StatusExplained` | internal/tasks/orchestrator.go:130-143 | a row reads canceled, with a note, only if that run was asked to stop, succeeded only if its executor returned nil, failed only if it returned an error or panicked or by recovery |
| `Settling.RowsTell` | internal/tasks/orchestrator.go:128-152 | a stored row its run settled reads canceled if and only if the run was asked to stop before it decided, whatever its executor returned; otherwise failed exactly on an error or a panic; its note, detail, summary, host statuses and events are those of the snapshot taken, with "canceled" or the error where the note was empty |
| `Settling.FinalsTell` | internal/tasks/orchestrator.go:128-158 | the same, word for word, of the snapshot the run closes its hub with |
| `Settling.DirectRowTells` | internal/tasks/orchestrator.go:219-239 | a row recorded without a run keeps its content for good, its status succeeded if it was given unfinished |
| `Settling.RequestsGoThrough` | internal/tasks/orchestrator.go:201-259 | an accepted cancellation can fire and cancels the run; a manager that shuts down cancels it and can close its hub |
| `Settling.ToldAlways` | internal/tasks/orchestrator.go:116-158 | after every run of steps each task is as its own steps tell: asked or not, how its executor ended, which snapshot was taken |
| `Orchestrator.HeaderKept` | internal/tasks/history.go:60-82 | no step changes the cluster or the time of a row |
| `Orchestrator.HeadersStay` | internal/tasks/history.go:60-82 | a row keeps its cluster and time over any run of steps, crashes and recovery included |
| `Orchestrator.NeverStuck` | internal/tasks/orchestrator.go:60-169 | the holder of a lock always has a next action, whatever failed |
| `Orchestrator.ActionsCount` | internal/tasks/orchestrator.go:60-169 | each action of the lock's holder releases it or leaves fewer to go, and no other step but a crash touches the holder |
| `Orchestrator.HeldForTenActions` | internal/tasks/orchestrator.go:60-169 | over any stretch of steps in which it keeps its lock the holder does at most nine actions, so the tenth gives it back |
| `Sse.ParseFrame` | web/src/api/sse.ts:95-122 | the loop over a block's lines gives the fields of the block |
| `Sse.LineReads` | web/src/api/sse.ts:99-117 | every way to write a field line, with or without colon and blank, sets that field to the value; other names are ignored |
| `Sse.TakeBlocks` | web/src/api/sse.ts:76-82 | the inner loop yields the frames of all complete blocks and leaves the incomplete rest |
| `Sse.SseStream` | web/src/api/sse.ts:66-91 | the read loop yields the frames fed chunk by chunk |
| `Sse.NormalizeTwice` | web/src/api/sse.ts:75 | normalising line ends of a prefix first changes nothing, for text in which no CR precedes a CR LF |
| `Sse.DrainAppend` | web/src/api/sse.ts:76-82 | draining a text and then its rest with more text drains the whole |
| `Sse.FeedStep` | web/src/api/sse.ts:68-82 | one more chunk continues the frames and the rest of the text so far, for text in which no CR precedes a CR LF |
| `Sse.ChunkingIndependent` | web/src/api/sse.ts:66-91 | for text in which no CR precedes a CR LF the frames do not depend on how it is cut into chunks, cuts inside a line end included |
| `Sse.FramesOfSeen` | web/src/api/sse.ts:66-91 | for any text and cut the frames are those of the text the parser has seen |
| `Sse.SeenWholeExactly` | web/src/api/sse.ts:75 | for any text: the parser sees the normalised text however it is cut, if and only if no CR precedes a CR LF |
| `EventStream.CutChangesFrames` | web/src/api/sse.ts:75 | a text with a CR before a CR LF that gives other frames when it is cut behind the pair |
| `EventStream.StreamOperation` | internal/api/sse.go:43-86 | the event loop writes the items of the signals it saw, numbered from 1, and ends with the end frame |
| `EventStream.MessageParses` | web/src/api/sse.ts:95-122 | a written message parses to its id, event and data, whatever the data |
| `EventStream.LinesOfDataRead` | web/src/api/sse.ts:95-122 | a text of any number of lines, written as one data line each, reads as the text |
| `EventStream.ItemParses` | internal/api/sse.go:84-86 | a written message or keepalive in front of any text yields exactly its own frame, or none |
| `EventStream.ParsedAsWritten` | internal/api/sse.go:43-86 | for any chunking the parser yields exactly the written messages in order |
| `EventStream.StreamDeliversFrames` | web/src/api/sse.ts:201-233 | the browser's handlers get exactly the hub frames the server took from the channel |
| `EventStream.StreamPrefixDelivers` | web/src/api/sse.ts:201-233 | when only a beginning of the text arrived, cut anywhere, they get a beginning of those frames |
| `EventStream.EndEnds` | web/src/api/sse.ts:228-230 | the handlers get nothing that follows an end frame |
| `EventStream.OtherLeftOut` | web/src/api/sse.ts:210-232 | a frame of another event, or with text that does not decode, is left out and the others are not affected |
| `EventStream.ViewAfterEvents` | web/src/components/TaskLogStream.tsx:44-51 | after any events the view is the tail of what it showed and the events |
| `EventStream.TailExact` | web/src/components/TaskLogStream.tsx:31-51 | after a snapshot and events the view is the tail of all events if and only if the snapshot had events, or nothing was shown, or enough events followed |
| `EventStream.StaleLines` | web/src/components/TaskLogStream.tsx:31-51 | a snapshot without events leaves a line in view that is no event of it |
| `EventStream.TailOfGrowing` | web/src/components/TaskLogStream.tsx:31-51 | while snapshots never shrink the event list, the view is always its last `maxLines` events |
| `EventStream.BrowserShowsTail` | web/src/components/TaskLogStream.tsx:31-51 | server, network, parser and view together show the tail of the events for every run of the stream |
| `LiveView.ViewIsHubTail` | internal/tasks/hub.go:62-190 | in every reachable hub, whatever part of the text arrived and however it was cut, a subscriber's log view is the tail of the hub's events as of the last frame that reached the browser |
| `LiveView.ViewIsCurrent` | internal/tasks/hub.go:62-190 | once a live subscriber is drained and the text has arrived, its view is the tail of the operation's events |
| `LiveView.SentGrows` | internal/tasks/hub.go:62-77 | a log whose snapshots keep their events reaches every subscriber that way, whenever it joined |
| `HostOps.PreStageEffect` | internal/migration/installer.go:78-181 | a pre-stage touches no service; a finished one leaves Buckit installed, with its drop-in when the two units differ |
| `HostOps.SwitchEffect` | internal/migration/installer.go:188-236 | until the stop step nothing changed, after it only MinIO stopped, and a finished switch is on Buckit |
| `HostOps.StopBuckitEffect` | internal/migration/installer.go:494-539 | MinIO is never touched, Buckit is never started, and a finished stop left it off without drop-in |
| `HostOps.StartMinioEffect` | internal/migration/installer.go:545-581 | only MinIO changes, and a finished start runs and enables it |
| `HostOps.WorkKeeps` | internal/migration/executor.go:278-294 | any outcome of any step keeps what is known of a host in its phase |
| `HostOps.FewerLeft` | internal/migration/executor.go:278-294 | a step of one worker leaves fewer steps over all workers |
| `Cutover.MoveKeeps` | internal/migration/executor.go:278-294 | a step of one host in a fan-out keeps what is known of every host |
| `Cutover.ReturnKeeps` | internal/migration/executor.go:278-294 | so does a failed worker's return, which only then cancels the others |
| `Cutover.BarrierKeeps` | internal/migration/executor.go:140-163 | passing from phase to phase keeps it, with and without failures |
| `Cutover.VerdictEnters` | internal/migration/executor.go:160-179 | so do the verdicts of verification and commit, and only a stored commit flips the engine |
| `Cutover.OrderKept` | internal/migration/executor.go:140-163 | the log never shows a Switch step before a pre-stage ended, nor a StartMinio step before a StopBuckit ended |
| `Cutover.LogKeptByMove` | internal/migration/executor.go:278-294 | the record of which worker ended when stays right under any interleaving |
| `Cutover.InvAlways` | internal/migration/executor.go:81-202 | the invariant holds after every run of steps from every start |
| `Cutover.NeverEndsMidDowntime` | internal/migration/executor.go:140-202 | a run that stopped any MinIO ends with all attempted hosts on Buckit, each with the drop-in its units need, or after both rollback fan-outs, with MinIO back if the second succeeded and Buckit off if the first did; nil exactly when the flip was stored; a rollback never flips |
| `CutoverVerdict.OutcomeExactly` | internal/migration/executor.go:140-202 | by the steps taken: a finished run ended without a switch exactly when a pre-stage step failed; else it was rolled back exactly when a switch step or the verification failed, each rollback flag telling whether a step of its own phase failed; else the commit decides |
| `CutoverVerdict.CanSucceed` | internal/migration/executor.go:140-202 | while nothing failed and nobody canceled a next step can succeed with nothing failed after it, so the cutover can be completed from there |
| `CutoverVerdict.CancelStops` | internal/migration/executor.go:278-375 | once anybody canceled, each further look at the context fails, so no host begins its pre-stage or switch |
| `Cutover.BarriersHold` | internal/migration/executor.go:140-163 | hosts outside the attempted ones are untouched at every moment; a failed pre-stage leaves all services as found; both barriers hold; after a clean stop phase no attempted host runs Buckit while MinIO is started |
| `Cutover.OnlyVerifiedCommits` | internal/migration/executor.go:157-179 | a run gets to the commit only by a successful verification, and migrates only by a successful commit |
| `Cutover.ScriptsFollowed` | internal/migration/installer.go:78-236 | in every run each host takes the steps of each phase in order and stops at the first failure; nothing is installed before its checksum was verified, and Buckit is enabled only after MinIO was stopped |
| `Cutover.StepsByName` | internal/migration/installer.go:78-236 | by the names of the steps: before any host is switched every target took all twelve pre-stage steps in order, the drop-in last; a run that gets to verification switched every target; a teardown that succeeded took the package off between disabling Buckit and removing the drop-in; a restart that succeeded saw MinIO live |
| `Cutover.StepShrinks` | internal/migration/executor.go:140-202 | every step decreases one measure |
| `Cutover.RunsEnd` | internal/migration/executor.go:140-202 | no run takes more steps than a bound linear in the hosts |
| `Cutover.NeverStuck` | internal/migration/executor.go:140-202 | a run that is not done always has a next step |
| `Partition.PartitionHosts` | internal/migration/executor.go:208-246 | without a reply every host is attempted; with one, exactly the hosts reported online, refused when none is, the others skipped |
| `Partition.AttemptedAreOnline` | internal/migration/executor.go:236-245 | attempted hosts are exactly the requested ones that are online, with distinct ids kept |
| `Rollback.ProbeKeeps` | internal/migration/rollback.go:106-130 | the serial probe leaves out only hosts that ran no Buckit |
| `Rollback.ReturnKeeps` | internal/migration/rollback.go:153-175 | a failed worker's return, which only then cancels the others, keeps the invariant |
| `Rollback.StepKeeps` | internal/migration/rollback.go:104-196 | every step keeps the invariant |
| `Rollback.InvAlways` | internal/migration/rollback.go:68-213 | it holds after every run of steps |
| `Rollback.MinioStartsAfterBuckitStops` | internal/migration/rollback.go:153-175 | whenever a step starts MinIO on a host, no requested host runs Buckit |
| `Rollback.Results` | internal/migration/rollback.go:104-213 | nil means every target is back on MinIO without Buckit; the engine is reverted exactly when the run completed with a target; other hosts are untouched, and a run canceled while probing touched none |
| `Rollback.TargetsExactly` | internal/migration/rollback.go:104-130 | over the steps alone: a host is a target exactly when its probe answered active or gave no answer, in the order asked, and one that answered inactive stays as found |
| `Rollback.NothingToDo` | internal/migration/rollback.go:118-196 | while every probe answered inactive no host changes and the engine is not reverted; such a run ends complete or canceled |
| `Rollback.OutcomeExactly` | internal/migration/rollback.go:104-213 | by the steps taken: a finished rollback was canceled exactly when the probe loop saw it; else it had no target, or stopped at the first of its phases in which some step failed, or the revert of the engine decides |
| `Rollback.NoProbeAfterCancel` | internal/migration/rollback.go:104-112 | once anybody canceled, no further host is probed |
| `DropIn.ParseUnitProps` | internal/deploy/unit_props.go:66-91 | the loop reads the last user and group and all files in order |
| `DropIn.ReadIsClean` | internal/deploy/unit_props.go:66-105 | whatever `systemctl show` printed, the values read stand on one line, trimmed |
| `DropIn.UserIsRead` | internal/deploy/unit_props.go:66-105 | a `User=` line gives the user, and nothing else changes |
| `DropIn.GroupIsRead` | internal/deploy/unit_props.go:66-105 | a `Group=` line gives the group, and nothing else changes |
| `DropIn.FilesAreRead` | internal/deploy/unit_props.go:66-105 | an environment-file line adds its path without dash and annotation |
| `DropIn.ReplyIsRead` | internal/deploy/unit_props.go:66-105 | a reply that shows a user, a group and files is read as exactly these |
| `DropIn.RenderDropIn` | internal/migration/installer.go:253-288 | the body is the lines for what differs, or empty |
| `DropIn.LinesApply` | internal/migration/installer.go:264-281 | merged over Buckit's unit the lines give the wanted user, group and files |
| `DropIn.BodyLines` | internal/migration/installer.go:285-287 | systemd applies exactly the lines behind the section header |
| `DropIn.IdentityPreserved` | internal/migration/installer.go:253-288 | Buckit's unit with the drop-in has the old unit's user and files, with fallbacks; and its group if and only if one is set, or the wanted one is not root, or the user's own group is root |
| `DropIn.GroupLost` | internal/migration/installer.go:268-272 | a unit in group root loses it when Buckit's unit sets none and the user's own group is another |
| `DropIn.GroupLostExample` | internal/migration/installer.go:268-272 | user `minio` in group root, next to a unit that sets nothing |
| `DropIn.EmptyIffAgreed` | internal/migration/installer.go:253-284 | the body is empty if and only if the units agree as systemd runs them, but for units with the wanted user and files and an unset group that the code and systemd judge differently; there it is exactly the other way round |
| `DropIn.EmptyThoughGroupsDiffer` | internal/migration/installer.go:257-284 | an empty body for units in different groups |
| `DropIn.WrittenThoughAgreed` | internal/migration/installer.go:257-284 | a body for units that agree |
| `DropIn.ShownIdentityPreserved` | internal/deploy/unit_props.go:66-105 | the same, the group's exact condition included, for any two replies of `systemctl show` |
| `EnvFile.ParseEnvFile` | internal/operations/rotate_root_creds.go:689-709 | the loop gives the lines of the text, the piece after a final newline dropped |
| `EnvFile.GetKey` | internal/operations/rotate_root_creds.go:724-732 | the value of the last assignment, found from the end |
| `EnvFile.SetKey` | internal/operations/rotate_root_creds.go:743-770 | the first assignment is rewritten, later ones dropped, a new key appended |
| `EnvFile.RemoveKey` | internal/operations/rotate_root_creds.go:772-781 | every assignment of the key goes, the other lines stay in order |
| `EnvFile.RenderFile` | internal/operations/rotate_root_creds.go:783-793 | the raw lines, each with a newline |
| `EnvFile.UnescapeQuotes` | internal/operations/rotate_root_creds.go:711-722 | the first replacement undoes the quotes of escaped text and nothing else |
| `EnvFile.UnescapeInvertsEscape` | internal/operations/rotate_root_creds.go:711-803 | the two sequential replacements invert the escaping on every string |
| `EnvFile.FormattedLineParses` | internal/operations/rotate_root_creds.go:795-803 | a printed assignment parses to its key and value, whatever the value |
| `EnvFile.ParseIsFaithful` | internal/operations/rotate_root_creds.go:689-709 | every parsed line is what parsing its raw text gives |
| `RawLines.MatchesExactly` | internal/operations/rotate_root_creds.go:672-709 | matching a line from the left finds key and value text if and only if the line splits as the assignment pattern says at all |
| `RawLines.AssignsExactly` | internal/operations/rotate_root_creds.go:689-709 | a line assigns a key if and only if it matches the pattern with it; the raw line is kept either way |
| `RawLines.KeysByName` | internal/operations/rotate_root_creds.go:672 | a key is a word of letters, digits and underscores that begins with no digit |
| `RawLines.SpelledReads` | internal/operations/rotate_root_creds.go:689-722 | for every way to spell an assignment (blanks and `export` in front, blanks around the value, bare, single or double quotes) the line assigns exactly the key and the value it spells |
| `RawLines.OtherLineIsKept` | internal/operations/rotate_root_creds.go:689-709 | a line whose first non-blank character starts no key assigns nothing and is kept as it is |
| `RawLines.LastSpelledReads` | internal/operations/rotate_root_creds.go:689-732 | in any text, the last line that mentions a key decides its value, as that line spells it |
| `RawLines.UnmentionedIsUnset` | internal/operations/rotate_root_creds.go:689-732 | a key no line of the text mentions is unset |
| `EnvFile.RenderParse` | internal/operations/rotate_root_creds.go:689-793 | printing a parsed text gives the text with a final newline |
| `EnvFile.ParseRender` | internal/operations/rotate_root_creds.go:689-793 | parsing a printed faithful file gives the file |
| `EnvFile.EditsRoundTrip` | internal/operations/rotate_root_creds.go:689-793 | so after any sequence of sets and removes with newline-free values |
| `EnvFile.MapLaws` | internal/operations/rotate_root_creds.go:724-781 | set, get and remove obey the laws of a map despite duplicate keys |
| `EnvFile.SetKeepsOtherLines` | internal/operations/rotate_root_creds.go:743-770 | setting a key keeps every line that does not assign it, in order |
| `Credentials.ResolvedInWords` | internal/operations/rotate_root_creds.go:289-385 | a node resolves to credentials if and only if no file of it names credential files and the secondary its primary names holds them, or holds none and the primary does, or the primary names no secondary and holds them itself |
| `Credentials.NextPrimaryGets` | internal/operations/rotate_root_creds.go:341-352 | the new primary names the secondary and holds no credentials, other keys unchanged |
| `Credentials.NextPrimaryAssigns` | internal/operations/rotate_root_creds.go:341-352 | for every key, all values the new primary assigns: the path alone for `MINIO_CONFIG_ENV_FILE`, none for user, password and both `_OLD` keys, as before for any other |
| `Credentials.NextSecondaryGets` | internal/operations/rotate_root_creds.go:387-395 | the new secondary holds the user and password, other keys unchanged |
| `Credentials.NextSecondaryAssigns` | internal/operations/rotate_root_creds.go:387-395 | for every key, all values the new secondary assigns: user and password once, none for both `_OLD` keys, as before for any other |
| `Credentials.CredsAreStorable` | internal/operations/rotate_root_creds.go:369-385 | credentials read from files can be written back on one line |
| `Credentials.NewPrimaryReads` | internal/operations/rotate_root_creds.go:341-352 | re-reading the written primary finds the secondary's path and no credentials |
| `Credentials.NewSecondaryReads` | internal/operations/rotate_root_creds.go:387-395 | re-reading the written secondary finds exactly the user and password |
| `Credentials.WrittenResolves` | internal/operations/rotate_root_creds.go:369-395 | after both writes a node resolves to its user and the new password if and only if its secondary is not its primary by the same path text |
| `Credentials.RewriteKeepsOthers` | internal/operations/rotate_root_creds.go:341-395 | both rewrites keep every comment and every other assignment, in order |
| `RotationFleet.HereDocStoresBody` | internal/operations/rotate_root_creds.go:623-644 | a here-document stores its body, with a final newline, if and only if no line is the marker |
| `RotationFleet.Fleet.WriteRemoteFile` | internal/operations/rotate_root_creds.go:623-644 | success stores the body up to a final newline; failure may leave any text, in that file only |
| `RotationFleet.Fleet.RemoveRemoteFile` | internal/operations/rotate_root_creds.go:646-652 | success removes that file only |
| `RotationFleet.Fleet.BackupRemoteFile` | internal/operations/rotate_root_creds.go:565-569 | only the backup path changes |
| `RotationFleet.Fleet.Apply` | internal/operations/rotate_root_creds.go:397-418 | no file is written before both are in their backups as they were; success leaves both files written |
| `RotationFleet.Fleet.Restore` | internal/operations/rotate_root_creds.go:430-443 | success leaves both files as planned from, up to a final newline, a file that did not exist removed |
| `RotationFleet.Fleet.Rollback` | internal/operations/rotate_root_creds.go:420-428 | every touched node is tried; if all succeed all are restored |
| `RotationFleet.Fleet.WritePhase` | internal/operations/rotate_root_creds.go:138-203 | a phase ends with all nodes written, or at the failing node with all touched ones restored if every restore succeeded, or canceled between nodes with the rest untouched; in each case every node it wrote has both files in their backups as the phase found them |
| `RotationFleet.Fleet.SavePassword` | internal/operations/rotate_root_creds.go:541-553 | one attempt stores the password or leaves the stored one |
| `RotationFleet.Fleet.RollingRestart` | internal/operations/rotate_root_creds.go:445-472 | the nodes restart in order and stop at the first that does not come back, or at a cancellation; the restarts made are exactly those |
| `RotationFleet.Fleet.RollbackWithRestart` | internal/operations/rotate_root_creds.go:474-501 | restores from the last restarted node back, later nodes untouched; on success every node restarted in that order |
| `RotationFleet.Fleet.NormalizePhase` | internal/operations/rotate_root_creds.go:127-181 | normalisation ends as its outcome says, or leaves every node at the start of the password phase, with every normalised node restarted and healthy |
| `RotationFleet.Fleet.PasswordPhase` | internal/operations/rotate_root_creds.go:183-203 | a rolled-back password phase leaves both files of every node as the phase found them, the normalised text included |
| `RotationFleet.Fleet.WriteAll` | internal/operations/rotate_root_creds.go:127-203 | both phases together: every outcome describes the files of every planned node |
| `RotationFleet.BackAtStart` | internal/operations/rotate_root_creds.go:420-428 | a complete rollback of the normalised nodes puts every plan back at its start |
| `RotationFleet.StartOfPassword` | internal/operations/rotate_root_creds.go:152-165 | after normalisation every password target starts from what its node holds |
| `Rotation.NormalizationKeepsCreds` | internal/operations/rotate_root_creds.go:289-395 | normalising a node keeps what it resolves to |
| `RawLines.LegacyNodeIsPlanned` | internal/operations/rotate_root_creds.go:289-367 | a node whose primary file spells user and password, in any quoting, and names no other file resolves to exactly those and is planned for normalisation |
| `Rotation.PasswordWriteResolves` | internal/operations/rotate_root_creds.go:343-395 | after the password write a node resolves to the same user and the new password if and only if its secondary and primary are not the same path text |
| `Rotation.PasswordWriteKeepsOthers` | internal/operations/rotate_root_creds.go:343-395 | every comment and other assignment of the primary, and of a secondary that is another file, survives normalisation and password write, in order |
| `Rotation.OneFileExists` | internal/operations/rotate_root_creds.go:289-367 | for every user and password some node passes the preflight with one file for both, so the exception is real |
| `Rotation.MarkedFileExists` | internal/operations/rotate_root_creds.go:623-644 | for every user and password some node passes the preflight with a primary file whose new text the shell would cut at the marker line |
| `Rotation.PlanIsClean` | internal/operations/rotate_root_creds.go:341-395 | texts planned from a marker-free primary and a marker-free secondary are marker-free |
| `Rotation.RotationMeaning` | internal/operations/rotate_root_creds.go:187-203 | after all writes every planned node resolves to the new password, but for those whose two files have the same path text |
| `Rotation.PlanNodes` | internal/operations/rotate_root_creds.go:88-110 | exactly one plan for each node with the unit, in order, each from the node's files |
| `Rotation.WithUnitExactly` | internal/operations/rotate_root_creds.go:88-110 | the nodes planned are exactly those with the unit, in their order |
| `Rotation.ValidateRootPassword` | internal/credentials/credentials.go:32-42 | accepts exactly 8 to 40 characters, each from 0x21 to 0x7e |
| `Rotation.Preflight` | internal/operations/rotate_root_creds.go:64-125 | a run that goes on has a valid password that some node does not have yet |
| `Rotation.WritePlans` | internal/operations/rotate_root_creds.go:127-203 | what the write phases leave in every file of every node |
| `Rotation.WriteAndFinish` | internal/operations/rotate_root_creds.go:127-261 | everything behind the preflight, with saving the password |
| `Rotation.Finish` | internal/operations/rotate_root_creds.go:205-245 | the stored password changes exactly when an attempt to save it succeeds; the attempts are up to four failures and that success, or five failures, or the failures before a cancellation |
| `Rotation.Execute` | internal/operations/rotate_root_creds.go:44-261 | a refused run changes nothing; other nodes and other files are never touched; every outcome describes the files of exactly the nodes with the unit; no password is written before every normalised node restarted and came back; the cluster restarts exactly once, after all writes, and the password is stored only if it did; after a completed write phase every node resolves to the new password, but for the exception above, and its backups hold what the password phase started from |
| `Affixes.LongestCommonPrefix` | internal/deploy/volumes.go:146-160 | the shrinking loop computes the longest common prefix |
| `Affixes.LongestCommonSuffix` | internal/deploy/volumes.go:162-176 | the same for suffixes |
| `Affixes.LcpIsLongest` | internal/deploy/volumes.go:146-160 | a string is a common prefix if and only if it is a prefix of the result |
| `Affixes.LcsIsLongest` | internal/deploy/volumes.go:162-176 | the same for suffixes |
| `Ellipses.ExpandPattern` | internal/operations/redeploy_preflight.go:168-182 | a printed pattern denotes its prefix, each label and each expansion of the rest |
| `Ellipses.ExpandAfterPrefix` | internal/operations/redeploy_preflight.go:168-182 | literal text in front stays in front |
| `Volumes.CleanList` | internal/deploy/volumes.go:76-82 | the names trimmed, blank ones dropped |
| `Volumes.NameIsCleaned` | internal/deploy/volumes.go:76-82 | a name between spaces gives the name, spaces alone give nothing |
| `Volumes.TakeMiddles` | internal/deploy/volumes.go:92-102 | succeeds exactly when every name has digits between the common prefix and suffix |
| `Volumes.TakeNumbers` | internal/deploy/volumes.go:114-126 | fails only on an overflow or a number that comes twice, and then the numbers are no run |
| `Volumes.SortInts` | internal/deploy/volumes.go:127 | the same numbers in order |
| `Volumes.FitMiddles` | internal/deploy/volumes.go:104-139 | fits exactly when the numbers are one run and, if the first is padded, equally wide; the bounds are its ends |
| `Volumes.DuplicateIsNoRun` | internal/deploy/volumes.go:121-123 | a number that comes twice rules out a run |
| `Volumes.GapIsNoRun` | internal/deploy/volumes.go:128-132 | so does a gap |
| `Volumes.FitList` | internal/deploy/volumes.go:90-143 | two or more names give their pattern exactly when they fit |
| `Volumes.DetectNumericPattern` | internal/deploy/volumes.go:75-144 | all cases: none, one, or many names |
| `Lossless.CompressionLossless` | internal/deploy/volumes.go:75-144 | a pattern denotes exactly the names it was made from if and only if the first middle is padded or no middle of several digits starts with a zero |
| `Lossless.PatternDenotes` | internal/deploy/volumes.go:104-143 | the same for two or more names that fit |
| `Lossless.LabelOfMiddle` | internal/deploy/volumes.go:134-139 | a label prints its number as the name had it, or zeros are lost |
| `Lossless.LossyExample` | internal/deploy/volumes.go:104-105 | `d110, d109` fit and their pattern denotes other names |
| `Lossless.RunCompresses` | internal/deploy/volumes.go:90-143 | names in any order that differ in the numbers of one run, all without leading zeros or all equally wide, compress to the prefix, the lowest and the highest number as written, and the suffix |
| `VolumeText.RenderVolumes` | internal/deploy/volumes.go:17-73 | the value for one host or many, in all four cases of pattern and literal |
| `VolumeText.EachHost` | internal/deploy/volumes.go:47-61 | every host with every path, host by host |
| `VolumeText.CompressedDenotes` | internal/deploy/volumes.go:29-37 | a list or its pattern denotes the list if and only if no padding is lost |
| `VolumeText.ExpandProduct` | internal/deploy/volumes.go:39-59 | a host pattern multiplies with the path behind it |
| `VolumeText.TokensDenote` | internal/deploy/volumes.go:37-61 | the arguments for two or more hosts denote exactly hosts times paths if, and for host names and rooted paths only if, neither compression loses padding |
| `ConfigEnv.ExtractEnvVar` | internal/operations/orchestrated.go:1236-1263 | the last assignment of the name wins |
| `ConfigEnv.FormattedAssigns` | internal/deploy/install.go:434 | a printed line assigns its own key only, and gives a plain value back |
| `ConfigEnv.ExtractsWhatWasPrinted` | internal/operations/orchestrated.go:1236-1263 | the reader gets back the value last printed for a key, whatever the other keys hold |
| `VolumeReader.LocalVolumePaths` | internal/operations/redeploy_preflight.go:128-158 | for any ellipses library, the sorted list without duplicates of all paths the value names |
| `VolumeReader.AddPath` | internal/operations/redeploy_preflight.go:144-156 | one more path keeps the list sorted and without duplicates |
| `Erasure.DefaultSetSize` | internal/deploy/params.go:143-152 | the largest divisor from 2 to 16, or 0 |
| `Erasure.ComputeSetSize` | internal/localdeploy/localdeploy.go:267-287 | the local search, which minimises the number of sets, agrees with it for two or more drives |
| `Erasure.LargestIsUnique` | internal/deploy/params.go:143-152 | being the largest supported divisor determines the size |
| `Erasure.DefaultsValid` | internal/deploy/params.go:187-206 | with nothing requested validation passes if and only if a supported divisor exists |
| `Erasure.ValidExactly` | internal/deploy/params.go:136-206 | validation passes if and only if the size asked for, or else the largest divisor from 2 to 16, is supported and divides the drives, and the parity asked for, or else 1, 2, 3 or 4 by that size, is from 1 to half of it |
| `Erasure.ResolvedAsRequested` | internal/deploy/params.go:136-185 | what a valid request resolves to is that size and that parity |
| `Erasure.LocalAndRemoteAgree` | internal/localdeploy/localdeploy.go:289-321 | local and remote code accept the same parities and settle on the same one |
| `Erasure.PrintedDecodes` | internal/deploy/install.go:407-416 | decoding the printed variables with defaults for elided ones gives the size and parity requested, or the numbers that stand for no request |
| `DeployConfig.Assignments` | internal/deploy/install.go:401-419 | the assignments of the file, in order |
| `DeployConfig.RenderConfigEnv` | internal/deploy/install.go:395-421 | the file is those assignments printed |
| `DeployConfig.AssignmentReads` | internal/deploy/install.go:401-421 | each key of the file reads back with its own value, no key is assigned twice |
| `DeployConfig.SettingsRead` | internal/deploy/install.go:401-419 | the file names the secondary file, the region under its key, and the trimmed server address under its own or nothing there when it is blank |
| `DeployConfig.OptionsRead` | internal/deploy/install.go:395-400 | the words of `MINIO_OPTS` read from the file: the API port behind `--address`, the console port behind `--console-address`, the certificate directory exactly with TLS |
| `DeployConfig.DrivesRead` | internal/deploy/volumes.go:17-61 | for two or more hosts, and lists that compress without loss, the arguments read from the file denote `https` drives with TLS and `http` ones without, at the API port, every host with every path in order |
| `DeployConfig.TokensName` | internal/operations/redeploy_preflight.go:134-151 | the arguments read back name what the compressed paths denote, host and port dropped |
| `DeployConfig.VolumesReadBack` | internal/operations/redeploy_preflight.go:128-158 | the rendered value passes the printer unchanged and names the paths exactly when nothing is lost |
| `DeployConfig.VolumesRoundTrip` | internal/operations/redeploy_preflight.go:128-182 | the paths read from the printed file are exactly the storage paths if and only if compressing them loses no padding |
| `DeployConfig.ErasureRoundTrip` | internal/deploy/install.go:407-416 | decoding the two erasure variables of the printed file gives the size and parity requested, or the numbers that stand for no request |
| `Decimal.ItoaDigits` | internal/deploy/volumes.go:134-135 | printed numbers are digits, have their value and no leading zero |
| `Decimal.PaddedOfValue` | internal/deploy/volumes.go:136-139 | padding a number to the width of a digit string that writes it gives the string |
| `Collation.TakeRun` | internal/nodes/nodes.go:109-116 | the longest leading run of one kind, and the rest |
| `Collation.CollateHostnames` | internal/nodes/nodes.go:72-105 | the sign of the result is the lexicographic order of the run tokens, digit runs as numbers |
| `Collation.NumbersDecide` | internal/nodes/nodes.go:81-94 | behind a common beginning two numbers decide by value, leading zeros aside; equal ones leave it to what follows |
| `Collation.WordsDecide` | internal/nodes/nodes.go:95-101 | two words decide by their lower-case texts |
| `Collation.ShorterFirst` | internal/nodes/nodes.go:103-104 | a hostname comes before those that continue it with a further run |
| `Collation.FirstDifferenceDecides` | internal/nodes/nodes.go:88-98 | text comparison is decided by the first difference, a text before those that continue it |
| `Collation.DigitsByValue` | internal/nodes/nodes.go:83-94 | comparing digit runs by trimmed length and text compares their numbers |
| `Collation.TotalPreorder` | internal/nodes/nodes.go:72-105 | for all hostnames the order is reflexive, antisymmetric in sign and transitive, and ties exactly on equal tokens |
| `Collation.MixedOnlyAtFirst` | internal/nodes/nodes.go:76-80 | a number is compared with a word at the first token only |
| `Collation.AsciiKeepsClass` | internal/nodes/nodes.go:96-97 | ASCII lower case meets the hypothesis on lower-casing |
| `PeerSelection.PickPeerInPoolScope` | internal/operations/orchestrated.go:1324-1349 | one pass with a fallback finds the first online, else the first offline usable peer of the scope |
| `PeerSelection.PickConfigSourcePeer` | internal/operations/orchestrated.go:1314-1319 | the two passes find the choice by rank |
| `PeerSelection.ProbeScope` | internal/operations/orchestrated.go:1149-1168 | the innermost loop finds the first answering node of one rank |
| `PeerSelection.ProbeUnitPropsFromAnyPeer` | internal/operations/orchestrated.go:1146-1172 | the four-fold loop uses the same choice |
| `PeerSelection.ChosenIsFirstOfLeastRank` | internal/operations/orchestrated.go:1146-1172 | for any predicate the choice is the first peer of least pool and online rank, and there is none exactly when no peer qualifies |
| `PeerSelection.ChosenInWords` | internal/operations/orchestrated.go:1314-1349 | the choice is never the target itself; it is in the target's pool if any usable peer is, and online if any usable peer of its scope is; there is none exactly when no other node is usable |
| `PeerSelection.ProbedInWords` | internal/operations/orchestrated.go:1146-1172 | the properties adopted are blank exactly when no other node answers any; else they are the answer of a node in the target's pool if any such answers, and of an online one of its scope if any such answers |
| `ShellQuote.ReplaceQuotes` | internal/operations/orchestrated.go:1479-1489 | the loop doubles out of and into quotes at every quote |
| `ShellQuote.LexQuoted` | internal/operations/orchestrated.go:1472-1477 | wherever a quoted string stands, the shell reads it as exactly the string |
| `ShellQuote.QuotedLineReads` | internal/operations/orchestrated.go:1472-1489 | a line of quoted words is read as those words |
| `ShellQuote.SudoBashPasses` | internal/operations/orchestrated.go:1465-1470 | through sudo the inner shell gets the command as one unchanged word |
| `ShellQuote.SudoBashNests` | internal/operations/orchestrated.go:1465-1489 | quoted words inside it reach their program unchanged, two levels down |

## Left out

- SSH, HTTP, the admin API, bbolt, TLS, systemd and the ellipses library themselves: they are
  step results, an atomic ordered map, or small functions.
- Time: timeouts, backoff, grace periods and polling are steps that may happen or fail at any
  moment.
- Slices shared between snapshots (`cloneState`): snapshots are values, so aliasing between
  publisher and subscriber is not modelled.
- History rows that do not decode, which the reader skips.
- Store transactions that time out after they committed, and deletion under an open cursor.
- `EventStream.BrowserShowsTail`: does not model the pause button nor the race between the
  first progress fetch and the stream.
- Invalid UTF-8: strings are code points, except hostnames in `Collation`, which are bytes.
- `DropIn.IdentityPreserved`: does not model systemd specifiers (`%`), quoting and line
  continuations in unit files.
- `DeployConfig.VolumesRoundTrip`: takes the storage paths as given; the joining of mount and
  sub-directory (`path.Join`) is not part of this model. With a single host it does not cover
  paths that hold `://`, which the reader takes for URLs.
- `Rotation.Execute`: does not model path aliases and symbolic links, file modes, ownership
  and the host-status rows, which use the plan's index where rows follow the node's.
- `HostOps`: a remote command that goes on running after its step returned is not modelled.
- The stable sort of `List` in internal/nodes: the library sort is not modelled, only its order.
- `mergeAdminNodeFacts`, the health roll-up, `psQuote`, the local start scripts and
  `normalizeDataPaths`: simple merges, counters and formats.
- `expandPathPattern` of local deployments, which pads after a bare `0` where the library
  does not.
- `compareReleaseTags`, `detectBraceExpansion` and `ShellEscape`, which the modelled paths do
  not need.
- The web pages, routing, logging, discovery, self-update and the artifact catalog.
