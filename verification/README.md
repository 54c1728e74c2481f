# The durable notification engine of novascale-agent, verified

novascale-agent watches Codex hooks and Herdr panes on a host, keeps the resulting events in a small
SQLite database and uploads them to one notification backend at a time. This project models that engine
and proves what its comments and tests promise: a snapshot of distinct panes seen again announces nothing,
Herdr traffic never evicts or alters an unexpired Codex event, neither source starves the other at the
head of the queue, no event reaches a backend it is not bound to, nothing is captured without consent, and
every event has one fate. (Codex events do evict Herdr events: the last pass ranks them first.)

`dafny verify dfyconfig.toml` checks everything.

| file | what it holds |
|---|---|
| `text.dfy`, `metadata.dfy`, `json.dfy`, `events.dfy` | display text, the metadata normaliser, the JSON text its budget is about, validity of host events, the event built for one pane |
| `pending.dfy`, `dequeue.dfy`, `isolation.dfy` | the `pending_events` table: filing, the four DELETE passes, fates; what is handed out next; what Herdr cannot do to Codex |
| `ledger.dfy`, `refinement.dfy`, `frame.dfy`, `runs.dfy`, `history.dfy`, `isolated.dfy` | bindings, consent and reconciliation as functions on the whole database; its invariant; what a reconciliation sends, takes and leaves; whole runs of transactions; what two points of a run have to do with each other; runs with Herdr erased |
| `queue.dfy` | the `Queue` class: every method against the function it implements |
| `signals.dfy`, `upload.dfy` | the signal map and its ticks; the upload worker |
| `config.dfy`, `enrollment.dfy`, `agent.dfy` | enrollment, `init` and `switch-backend` as interleaved atomic steps; the `Agent` class, whose methods take those steps |
| `hooks.dfy`, `quoting.dfy` | the Codex hooks editor; shell words and env-file values |

The specification functions say what a transaction does to a database value (`Ledger.State`); the class
in `queue.dfy` changes its tables statement by statement and is proved to do just that; lemmas about the
functions then speak of single steps, of pairs of steps and of every run. Three things in the model are
history that no statement reads: the `serial` and `origin` of a row, and the `fates` of all insertions.

## Assumptions

- A transaction is atomic, the schema is current, and a rowid is one more than the highest present.
- Snapshots of a binding are committed in the order they were read, under the session id of the binding
  read from the table, with a socket marker that is not empty; agents are as `ReadHerdrAgents` returns
  them. Pane ids are *not* assumed distinct except where a member says so.
- Random ids are fresh. Times are seconds since 1970; the clock is monotone only where a member says so.
- Endpoints are in the form `url.String()` gives; only trailing slashes are trimmed, as in the code.
- Strings are valid UTF-8, as the JSON decoder leaves them, so a string is its sequence of characters.
- Nothing but the enrollment thread, `init` and `switch-backend` writes the config file, and the file is
  not removed.

## Findings

Properties that a reader may expect and the code does not have; each is stated with its exact condition.

- One `DisplayText` pass may not be a fixed point: a format character alone between blanks leaves two
  blanks (`Text.DisplayOnceIsNotFixed`). It is one exactly if no word of control and format characters
  alone lies between a word that has others and one of which something fits (`Text.DisplayOnceIsFixed`).
  Two passes always reach a fixed point.
- A Codex event whose id is still held by an *expired* row is lost: `INSERT OR IGNORE` comes before the
  expiry pass (`CodexIsolation.EnqueuedCodexIsPendingIfFree`, and a run of two hook events that gets there,
  `LedgerHistory.RepeatedRequestIsLost`). Ids repeat only for events with a request id, whose id is a hash
  of it (`notifications/internal/agent/daemon.go:189-196`); all others are random.
- A snapshot that lists a pane twice may queue an event again on every pass; `ReadHerdrAgents` does not
  check this (`LedgerRefinement.ReplaySilenceNeedsDistinctPanes`).
- Once 128 keys are pending the signal map drops signals even for pending keys, with their baseline flag
  (`HerdrSignals.NextIsHonoured`, `HerdrSignals.BaselineIsLost`, `HerdrSignals.AllNextAreHonoured`).
- The `needs_setup_token` migration writes the file without the lock and can undo a finished
  `switch-backend` (`Enrollment.MigrationCanUndoSwitch`); it is the only write of the enrollment thread
  that can move the file to another endpoint (`Enrollment.ThreadWritesKeepTheEndpoint`). The comment at
  `notifications/internal/agent/enrollment.go:122-124` does not mention it.
- `uninstall` of hooks fails on a malformed hook group that `install` tolerates, and drops groups it
  found empty (`HookConfig.UninstallFailsExactly`, `HookConfig.InstallThenUninstall`).
- A configuration value with a newline is not read back: `$(...)` strips a trailing one, and at any other
  the reader, which takes one line, sees an unfinished value and fails (`EnvQuoting.ReadBackExactly`).

## Model

| member | source | states |
|---|---|---|
| Text.DisplayText | notifications/internal/protocol/herdr_metadata.go:25-37 | the builder loop computes the collapsed text without control and format characters, up to the last character that fits, trimmed |
| Text.DisplayIsPrintable | notifications/internal/protocol/herdr_metadata.go:25-37 | for every input the result is within the byte limit and free of control and format characters |
| Text.DisplayFixed | notifications/internal/protocol/herdr_metadata.go:25-37 | a text is left alone exactly if it is printable, single-spaced, without a blank at either end and within the limit |
| Text.DisplayIsCut | notifications/internal/protocol/herdr_metadata.go:25-37 | a canonical text is cut at the last whole character that fits, less a blank there |
| Text.DisplayTwiceIsFixed | notifications/internal/protocol/herdr_metadata.go:25-37 | two passes, even with different limits, reach a fixed point |
| Text.DisplayOnceIsFixed | notifications/internal/protocol/herdr_metadata.go:25-37 | one pass is a fixed point exactly if no word of dropped characters alone lies between a word with others and a later one whose first kept character fits |
| Text.DisplayOnceIsNotFixed | notifications/internal/protocol/herdr_metadata.go:25-37 | a concrete input on which one pass is not: a lone format character between blanks |
| HerdrMetadata.Normalize | notifications/internal/protocol/herdr_metadata.go:39-78 | the method with the unbounded loop terminates and computes the normal form |
| HerdrMetadata.ResidualFits | notifications/internal/protocol/herdr_metadata.go:56-77 | when nothing more can be shortened, session name, workspace and status take at most 906 bytes, JSON escapes included (section 7 of RFC 8259) |
| HerdrMetadata.NineRoundsSuffice | notifications/internal/protocol/herdr_metadata.go:56-77 | the shrinking loop runs at most nine times on any input |
| HerdrMetadata.NormalizedIsBounded | notifications/internal/protocol/herdr_metadata.go:39-78 | the encoded result has at most 1200 bytes; the workspace id is whole, or dropped exactly when the document is over budget and the id alone takes over 600 bytes |
| MetadataJson.JsonTextLength | notifications/internal/protocol/herdr_metadata.go:57 | the length the normaliser works with is that, in bytes, of the JSON text written out with its escapes, separators and omitted fields |
| MetadataJson.NormalizedTextFits | notifications/internal/protocol/herdr_metadata.go:55-60 | the JSON text of normalised metadata has at most 1200 bytes |
| HerdrMetadata.WithinBudget | notifications/internal/protocol/herdr_metadata.go:39-60 | when the clipped document fits, every field is its display text within its own limit and nothing else |
| HerdrMetadata.OneRoundKeepsHalf | notifications/internal/protocol/herdr_metadata.go:61-76 | when one round suffices, every shortened field and label keeps as many whole characters as fit in half its bytes, and a label goes only when none do |
| HerdrMetadata.SessionNameIsKept | notifications/internal/protocol/herdr_metadata.go:80-92 | the session name is kept exactly if it has up to 64 plain characters and is no dot name |
| HerdrMetadata.SecondPassIsNormal | notifications/internal/protocol/herdr_metadata.go:39-78 | normalising, setting any session name and normalising again gives metadata in normal form |
| HerdrMetadata.NormalizedFixed | notifications/internal/protocol/herdr_metadata.go:39-78 | normalisation leaves alone exactly the normal forms |
| HerdrMetadata.StatusSurvives | notifications/internal/protocol/herdr_metadata.go:39-78 | both passes keep the agent status |
| HostEvents.ValidForIsNormalForm | notifications/internal/protocol/herdr_metadata.go:94-106 | a receiver accepts metadata exactly if it is in normal form and its status fits the event |
| HostEvents.PaneEventIsValid | notifications/internal/agent/herdr_state.go:138-150 | every event built from a checked agent is valid, whatever the agent reports about itself |
| HostEvents.PaneEventCarries | notifications/internal/agent/herdr_state.go:138-141 | the event carries session, pane, kind, time and, when they are in normal form, every metadata field in its own place |
| HostEvents.CodexThreadFacts | notifications/internal/agent/herdr_api.go:52-72 | the thread id is given exactly by a Codex agent that reports a UUID as its session |
| HostEvents.HookEventIsValid | notifications/internal/protocol/types.go:72-90 | a hook event is valid exactly with one of two kinds, a time, and ids of one line and 1 to 256 bytes |
| PendingEvents.FilingFacts | notifications/internal/agent/queue.go:124-132 | a valid Herdr event is filed under its session and pane for half an hour from when it occurred, anything else as Codex for a week; due at once, without attempts |
| PendingEvents.EnqueueKeepsCaps | notifications/internal/agent/queue.go:123-151 | from a table within 500 rows, 200 Herdr rows and 50 rows a session, an insertion with its passes leads to one, of unchanged rows |
| PendingEvents.PassesAreClosedForm | notifications/internal/agent/queue.go:136-149 | the four sequential DELETE passes keep a row exactly if it survives one predicate on the table before them: unexpired, and among the newest 500 Codex rows, or the newest 50 of its session, the newest 200 of those, and within 500 after all Codex rows |
| PendingEvents.EnqueuedHerdrIsPending | notifications/internal/agent/queue.go:131-149 | a new Herdr event not created before any other is queued exactly if fewer than 500 unexpired Codex rows are there, however full its session |
| PendingEvents.HerdrPassesKeepNewest | notifications/internal/agent/queue.go:141-142 | a row deleted by the session pass leaves 50 later ones of its session, one deleted by the Herdr pass 200 later ones, by creation time and rowid |
| PendingEvents.HerdrDepartures | notifications/internal/agent/queue.go:136-149 | an unexpired Herdr row goes in an enqueue only for 50 later ones of its session, 200 later Herdr rows, or 500 with the Codex rows |
| PendingEvents.FateOfLost | notifications/internal/agent/queue.go:136-149 | a row that an enqueue takes is recorded as expired if it had, else as evicted |
| PendingEvents.EnqueueConserves | notifications/internal/agent/queue.go:123-151 | every insertion ever made has one fate, the pending ones are exactly the rows, and a fate once settled never changes |
| PendingEvents.DeleteConserves | notifications/internal/agent/queue.go:206-209 | the same for any deletion |
| Dequeue.NextIsUnique | notifications/internal/agent/queue.go:192-195 | the ORDER BY determines the row handed out |
| Dequeue.BoundedWait | notifications/internal/agent/queue.go:183-204 | a due row with k older rows of its source and backend, due by the horizon, cannot be passed over in 2(k+1) calls, whatever arrives from the other source and whether the uploads succeed or fail; a row that comes back by the horizon after a failure costs two calls more |
| Dequeue.EnqueueIsFair | notifications/internal/agent/queue.go:123-151 | an insertion of either source puts no row before a waiting one |
| Dequeue.DeleteIsFair | notifications/internal/agent/queue.go:206-209 | nor does a deletion |
| Dequeue.RetryIsFair | notifications/internal/agent/queue.go:211-214 | nor does rescheduling another row, unless it makes it due by the horizon when it was not |
| LedgerHistory.StepsAreFair | notifications/internal/agent/queue.go:107-230 | no transaction at all, snapshots, backend switches and consent changes included, puts a row before a waiting one |
| LedgerHistory.RunsAreFair | notifications/internal/agent/queue.go:107-230 | nor does any stretch of a run |
| Upload.TurnIsRound | notifications/internal/agent/daemon.go:212-231 | a turn of the upload loop is a round of that wait, completed or put off by its backoff |
| CodexIsolation.HerdrKeepsCodex | notifications/internal/agent/queue.go:136-149 | a Herdr insertion neither evicts, adds nor changes an unexpired Codex row |
| CodexIsolation.CodexAddedTogether | notifications/internal/agent/queue.go:123-151 | two tables with the same unexpired Codex rows, whatever Herdr rows they hold, still have the same ones after a Codex insertion: the same are evicted |
| CodexIsolation.EnqueuedCodexIsPendingIfFree | notifications/internal/agent/queue.go:131-140 | a Codex event is pending after its insertion exactly if no expired row held its id |
| LedgerHistory.RepeatedRequestIsLost | notifications/internal/agent/queue.go:131-140 | from the empty database, a second event under the same request after the first expired is lost |
| LedgerInvariant.BindKeepsIdentity | notifications/internal/agent/herdr_state.go:21-46 | binding keeps every session id; it is refused exactly without consent or, for a new key, at 128 bindings, and then changes nothing |
| LedgerInvariant.BindKeepsInv | notifications/internal/agent/herdr_state.go:21-46 | binding keeps the invariant: caps, fates, no stale hint, consent, unique session ids, at most 128 bindings |
| LedgerInvariant.SetCaptureKeepsInv | notifications/internal/agent/herdr_capture.go:24-45 | so does turning capture on or off; off leaves no pane and no Herdr row, and keeps every session id and every Codex row |
| LedgerInvariant.DisabledIsSilent | notifications/internal/agent/herdr_capture.go:24-45 | while capture is off the ledger is empty and no pane event is queued |
| LedgerInvariant.PaneRowFacts | notifications/internal/agent/herdr_state.go:137-152 | the event of a pane is filed as Herdr, under its session and pane, for 30 minutes, bound to the current backend |
| LedgerInvariant.DecideFacts | notifications/internal/agent/herdr_state.go:108-132 | attention is sent exactly when a known pane, same terminal and raised sequence, becomes blocked; progress exactly when its work completes; nothing at a baseline; queued events are purged exactly when a stored pane shows another terminal or a lower sequence |
| LedgerInvariant.ReconcileKeepsInv | notifications/internal/agent/herdr_state.go:73-190 | a reconciliation keeps the invariant: each queued pane event belongs to a stored pane of the same incarnation and terminal whose sequence has not fallen below it, and queued events of a pane have increasing sequences |
| LedgerRefinement.LedgerIsSnapshot | notifications/internal/agent/herdr_state.go:101-188 | after a reconciliation the panes of the binding are exactly the snapshot, and all others untouched |
| LedgerRefinement.EmissionsArePure | notifications/internal/agent/herdr_state.go:101-132 | for a snapshot of distinct panes, what the loop sends is a function of the previous ledger and the snapshot alone |
| LedgerRefinement.EmissionsAreInserted | notifications/internal/agent/herdr_state.go:137-153 | exactly the emissions of the loop are inserted, under ids drawn for them |
| LedgerRefinement.EmissionsCarryTheirEvents | notifications/internal/agent/herdr_state.go:137-153 | under the id drawn for an agent nothing is queued but the event emitted for it; every other row was there before, unchanged |
| LedgerRefinement.ReconcileEmits | notifications/internal/agent/herdr_state.go:73-190 | the whole transaction inserts exactly as many events as the ledger and a snapshot of distinct panes determine, none at a baseline or in a new incarnation |
| LedgerRefinement.ReconcileCarries | notifications/internal/agent/herdr_state.go:73-190 | and every row it adds is that of the event sent for its agent |
| LedgerFrame.ReconcileFrame | notifications/internal/agent/herdr_state.go:87-97 | a reconciliation takes every hint of its session whose incarnation, terminal or sequence is past or whose pane left; every other row, of any source and session, stays as it is, unless events were sent and it expired or was evicted |
| LedgerFrame.QuietReconcileIsExact | notifications/internal/agent/herdr_state.go:73-190 | when nothing is sent the rows afterwards are exactly those that are not outdated |
| LedgerHistory.RunsEmitBetween | notifications/internal/agent/herdr_state.go:73-190 | in any run, a snapshot inserts exactly the events that the previous snapshot of its binding and itself determine |
| LedgerRefinement.ReplayIsSilent | notifications/internal/agent/herdr_state.go:101-190 | reconciling the same snapshot of distinct panes again sends and changes nothing |
| LedgerRefinement.ReplaySilenceNeedsDistinctPanes | notifications/internal/agent/herdr_api.go:208-217 | a second reconciliation of any snapshot of a list of pane ids inserts nothing exactly if the list has no repetition; otherwise there is one of which it queues an event |
| LedgerRuns.StartIsSound | notifications/internal/agent/queue.go:26-103 | the empty database satisfies the invariant |
| LedgerRuns.NextKeepsInv | notifications/internal/agent/queue.go:107-230 | every transaction of the queue and the ledger keeps the invariant |
| LedgerRuns.EveryStateIsSound | notifications/internal/agent/queue.go:107-230 | so it holds in every state of every run, from the empty database for one |
| LedgerRuns.LedgerMirrorsSnapshots | notifications/internal/agent/herdr_state.go:73-190 | after any run the panes of every binding are its last reconciled snapshot, or none if capture was turned off since |
| LedgerHistory.EpisodesAreSeparate | notifications/internal/agent/herdr_state.go:108-127 | in any run, between re-baselines of a pane its events have strictly increasing sequences, and between two attention events the ledger held an observation that is not blocked |
| LedgerHistory.SessionIdsStay | notifications/internal/agent/herdr_state.go:21-46 | a binding once made stays for the rest of the run, under one session id, across any disable and enable |
| LedgerRuns.FollowsIsRun | notifications/internal/agent/queue.go:107-230 | a sequence of legal steps, as the workers take them, is a run |
| LedgerRuns.RowsKeepTheirBackend | notifications/internal/agent/queue.go:153-173 | between any two points of a run a row is new or the same event on the same backend, and what has left keeps its fate |
| LedgerRuns.CodexDepartures | notifications/internal/agent/daemon.go:262-285 | a Codex row leaves only accepted, expired, evicted by at least 500 newer unexpired Codex rows, or wiped on uninstall; no rejection takes a valid hook event |
| LedgerIsolation.SnapshotOps | notifications/internal/agent/herdr_state.go:73-190 | what a reconciliation does to the queue is a sequence of Herdr insertions and deletions of Herdr rows |
| LedgerIsolation.HerdrIsInvisibleToCodex | notifications/internal/agent/herdr_state.go:73-190 | over any run of transactions the unexpired Codex rows, attempts and order included, are those of the run with every snapshot and every other Herdr event erased |
| DurableQueue.Queue.constructor | notifications/internal/agent/queue.go:26-103 | a new queue is the empty state |
| DurableQueue.Queue.EnqueueEvent | notifications/internal/agent/queue.go:123-151 | files, inserts and prunes as the table functions say |
| DurableQueue.Queue.ConfigureBackend | notifications/internal/agent/queue.go:155-173 | unassigned rows go to the previous backend, or else the new one; assigned rows never move |
| DurableQueue.Queue.NextForBackend | notifications/internal/agent/queue.go:179-204 | expired rows go; the row returned is due, unexpired and of the backend, and the query order puts it first; none exactly if no row is |
| DurableQueue.Queue.Complete | notifications/internal/agent/queue.go:206-209 | exactly the named row leaves |
| DurableQueue.Queue.Retry | notifications/internal/agent/queue.go:211-214 | only attempts and next attempt of the named row change |
| DurableQueue.Queue.ClearNotificationCapture | notifications/internal/agent/queue.go:222-230 | capture off, then every row discarded; bindings stay |
| DurableQueue.Queue.SetHerdrCaptureEnabled | notifications/internal/agent/herdr_capture.go:24-45 | the consent change as one transaction |
| DurableQueue.Queue.BindHerdr | notifications/internal/agent/herdr_state.go:21-46 | re-enables or creates a binding under the two guards |
| DurableQueue.Queue.Compare | notifications/internal/agent/herdr_state.go:102-132 | the comparison with the stored pane, variable by variable, decides as the specification does |
| DurableQueue.Queue.SweepRemoved | notifications/internal/agent/herdr_state.go:155-188 | the panes that disappeared, and no others, go with their queued events |
| DurableQueue.Queue.ReconcileHerdr | notifications/internal/agent/herdr_state.go:73-190 | the whole transaction is the reconciliation step of the runs |
| HerdrSignals.PendingIsCoalesced | notifications/internal/agent/herdr_state.go:239-248 | for every sequence of signals the map holds, per key, the last socket and the disjunction of the baseline flags of those heard, and never more than 128 keys |
| HerdrSignals.HeardExactly | notifications/internal/agent/herdr_state.go:245-248 | all signals are heard exactly if fewer than 128 keys were pending before the last |
| HerdrSignals.OrderDoesNotCount | notifications/internal/agent/herdr_state.go:239-248 | with fewer than 128 keys the map depends on the set of signals only, not on order or repetition |
| HerdrSignals.NextIsHonoured | notifications/internal/agent/herdr_state.go:245-248 | a signal is acted on exactly if a key is free or it adds nothing |
| HerdrSignals.BaselineIsLost | notifications/internal/agent/herdr_state.go:245-248 | in a full map a baseline request for a pending key is lost, unless one was made before |
| HerdrSignals.AllNextAreHonoured | notifications/internal/agent/herdr_state.go:245-248 | every possible next signal of the hook command is acted on exactly while fewer than 128 keys have been signalled |
| HerdrSignals.HerdrLoop.Receive | notifications/internal/agent/herdr_state.go:244-248 | the map update of one signal |
| HerdrSignals.HerdrLoop.Tick | notifications/internal/agent/herdr_state.go:251-257 | every pending signal is taken out and reconciled once, in any order, until cancelled; the database is that after those reconciliations |
| HerdrSignals.HerdrLoop.ReconcileHerdr | notifications/internal/agent/herdr_state.go:192-222 | one signal commits at most a binding and a snapshot, both legal steps, and queues as many events as its own baseline flag, the stored incarnation, the ledger and the snapshot determine |
| HerdrSignals.SignalTakesSnapshot | notifications/internal/agent/herdr_state.go:192-222 | with capture on and a readable socket, the panes of a binding in use, or one that may be made, become the snapshot; otherwise nothing happens |
| HerdrSignals.SignalSends | notifications/internal/agent/herdr_state.go:192-222 | a signal sends nothing if it is a baseline, the binding was not in use or the incarnation is new, else exactly what the ledger and the snapshot determine |
| HerdrSignals.SignalCarries | notifications/internal/agent/herdr_state.go:192-222 | every row it adds is the event of an agent under the session id and name of the binding, at the time of the reading |
| Upload.JudgeFacts | notifications/internal/agent/daemon.go:262-285 | by the reply to the last post: accepted exactly on 200 to 299 or 409, dropped exactly for a Herdr event on 400, 404 or 422 and a test on 429, otherwise tried again |
| Upload.PostFacts | notifications/internal/agent/daemon.go:243-276 | an event is posted once, and exactly after a 400 once more without metadata; Herdr events to the second version of the API, all others to the first |
| Upload.DelayDoubles | notifications/internal/agent/daemon.go:225-227 | the backoff starts at a second and doubles with every attempt up to an hour |
| Upload.Worker.UploadToBackend | notifications/internal/agent/daemon.go:237-287 | the verdict and the requests actually made |
| Upload.Worker.UploadNext | notifications/internal/agent/daemon.go:213-229 | one turn of the loop to the last detail: nothing unless active; else the row the queue must pick, its posts, and its completion or backoff; legal steps of a run |
| Upload.TurnSendsWell | notifications/internal/agent/daemon.go:213-229 | every request of a turn goes to the configured endpoint, for an event bound to it |
| Upload.Worker.UploadDue | notifications/internal/agent/daemon.go:212-231 | a pass is a chain of such turns, each but the last completing an event; it ends by itself within one turn more than there are rows, and keeps the invariant |
| Enrollment.InitialIsSound | notifications/cmd/novascale-agent/main.go:388-429 | before the daemon first starts the system invariant holds, with or without a config file |
| Enrollment.AfterKeepsSound | notifications/internal/agent/enrollment.go:45-212 | every atomic step of the daemon's threads, `init` and `switch-backend` keeps the system invariant |
| Enrollment.EveryInterleavingIsSound | notifications/internal/agent/enrollment.go:81-212 | so it holds in every state of every interleaving |
| Enrollment.HostIdNeverChanges | notifications/cmd/novascale-agent/main.go:249-298 | the config file, once written, stays, with the same host id |
| Enrollment.RefreshIsNeverRefused | notifications/internal/agent/enrollment.go:53-57 | the host check of a refresh never fails |
| Enrollment.ActiveIsRegistered | notifications/internal/agent/enrollment.go:190-195 | the file is active for an endpoint only after its host was registered there |
| Enrollment.FileChanges | notifications/cmd/novascale-agent/main.go:331-382 | whichever step writes the file: only switch-backend leaves an identity conflict, only a registration reply activates, and the endpoint changes by switch-backend, the unlocked migration, or an init that overwrites one |
| Enrollment.ThreadWritesKeepTheEndpoint | notifications/internal/agent/enrollment.go:67-79 | a write under the lock never moves the endpoint; the migration does exactly if the daemon's copy has another endpoint than the file |
| Enrollment.MigrationCanUndoSwitch | notifications/internal/agent/enrollment.go:121-129 | an interleaving from before the daemon's start, for any legacy host and other endpoint, in which the migration writes the old endpoint back after a finished switch |
| Enrollment.LegacyHostsExist | notifications/internal/agent/enrollment.go:121-129 | every configuration in the legacy state is one from which that interleaving starts |
| Enrollment.SendsAreBound | notifications/internal/agent/daemon.go:212-231 | in every interleaving of switch, refresh, enqueue and upload a send is under an active configuration, to a registered endpoint, of an event bound to that endpoint then and ever after |
| AgentProcess.Agent.RefreshConfig | notifications/internal/agent/enrollment.go:45-65 | left alone, the daemon's copy becomes the file by steps of the protocol, or stays if reading or the queue fails |
| AgentProcess.Agent.SaveRegistrationState | notifications/internal/agent/enrollment.go:67-79 | file and copy become the old copy with the new state, or stay if writing fails |
| AgentProcess.Agent.RefreshLocked | notifications/internal/agent/enrollment.go:166-174 | the refresh under the lock takes over the file, or releases the lock and leaves the copy |
| AgentProcess.Agent.AttemptEnrollment | notifications/internal/agent/enrollment.go:166-212 | the file turns active on registration, conflicting on a 409, and stays otherwise or if the lock, a read, the queue or the write fails; it is registered at the endpoint of the file |
| AgentProcess.Agent.EnrollmentPass | notifications/internal/agent/enrollment.go:81-148 | one pass of the loop: what the file holds after it, for every state, reply and failure, and when an active registration is refreshed again |
| AgentProcess.Agent.RunInit | notifications/cmd/novascale-agent/main.go:249-301 | accepts exactly a new host with an endpoint or the endpoint already used, and stages it; fails without a trace if the lock, the file, the key or the write does |
| AgentProcess.Agent.RunSwitchBackend | notifications/cmd/novascale-agent/main.go:331-382 | stages the new endpoint under the same host id exactly if forced, not active or for another endpoint, after binding unassigned events to the old one; the file stays if anything fails |
| HookConfig.ContainsCommand | notifications/internal/hookconfig/hooks.go:169-182 | finds the command in any well-formed group |
| HookConfig.FilterInPlace | notifications/internal/hookconfig/hooks.go:193-200 | the front of the same array ends up with exactly the other handlers, in order |
| HookConfig.RemoveCommand | notifications/internal/hookconfig/hooks.go:184-207 | fails exactly on a malformed group, else strips every group and drops the empty ones |
| HookConfig.Install | notifications/internal/hookconfig/hooks.go:20-55 | the loop over both events computes the installation |
| HookConfig.Uninstall | notifications/internal/hookconfig/hooks.go:57-102 | the loop over both events computes the uninstallation |
| HookConfig.Installed | notifications/internal/hookconfig/hooks.go:104-123 | true exactly if both events run the command |
| HookConfig.InstallFailsExactly | notifications/internal/hookconfig/hooks.go:20-38 | install fails exactly on an empty command, hooks that are no object, or an event that is no array |
| HookConfig.UninstallFailsExactly | notifications/internal/hookconfig/hooks.go:57-86 | uninstall fails also on a malformed group of either event |
| HookConfig.InstallInstalls | notifications/internal/hookconfig/hooks.go:20-55 | after install the command is at PermissionRequest and at Stop, a second install changes nothing, and every other command is installed or not as before |
| HookConfig.UninstallRemoves | notifications/internal/hookconfig/hooks.go:57-102 | exactly the handlers of the command go, all others stay in order, other events and the rest of the document are untouched |
| HookConfig.UninstallRemovesHandler | notifications/internal/hookconfig/hooks.go:193-219 | a handler goes exactly if its kind is command and it runs the command |
| HookConfig.UninstallKeepsOthers | notifications/internal/hookconfig/hooks.go:57-102 | after uninstall an event has a command exactly if it had it and it is another one |
| HookConfig.UninstallTwice | notifications/internal/hookconfig/hooks.go:57-102 | a second uninstall changes nothing |
| HookConfig.InstallThenUninstall | notifications/internal/hookconfig/hooks.go:20-102 | install then uninstall restores the hooks exactly if both events were free of the command, of malformed and empty groups and of empty arrays |
| ShellQuoting.ShellCommand | notifications/cmd/novascale-agent/main.go:145-160 | the scan leaves safe text alone and quotes everything else |
| ShellQuoting.HookCommandSplits | notifications/cmd/novascale-agent/main.go:105-160 | a POSIX shell splits the hook command into the path and `hook`, for every path that is not empty, as those of the program are not |
| ShellQuoting.HookCommandsDiffer | notifications/cmd/novascale-agent/main.go:105-160 | different paths have different hook commands |
| EnvQuoting.UnquoteConfigValue | notifications/internal/appservercontrol/update.go:179-199 | the index loop computes the unescaped value, or none on a missing quote or an unsupported escape |
| EnvQuoting.FourPassesAreOne | setup.sh:207-209 | the four sed passes, in their order, escape each of the four characters once |
| EnvQuoting.QuotedIsReadBack | setup.sh:207-209 | unquoting a value between double quotes, escaped by the four passes, gives the value |
| EnvQuoting.ReadBackExactly | notifications/internal/appservercontrol/update.go:140-199 | what the script writes, `$(...)` included, the agent reads from the first line exactly if the value has no newline |

## Left out

- SQLite, its connections, WAL and schema migration: a transaction is one step.
- The sockets, HTTP, Herdr's RPC and the plugin command line: snapshots, replies and status codes are inputs of the model.
- Signatures, hashes and random ids: opaque values, fresh where a member says so.
- The JSON round trip of an event is the identity, and the text comparison of the metadata check is equality of values; the encoded length is modelled in full.
- Columns that only order listings or date them: `updated_at`, `observed_at`, and the listing of bindings by them.
- The name shown for a binding is an input where the code derives it from the socket path.
- `DisplayText` of a notification body, queue depth, validators of one branch, path cleaning and version comparison: easy members.
- URL syntax: an endpoint is valid if it is not empty without its trailing slashes.
- The files themselves: permissions, the backup copy and the rename of a hooks file, and a hooks document that is JSON null, on which the editor would panic.
- The retry and poll delays of the enrollment loop, and the removal of legacy setup tokens.
- Other words of the shell language than quoting and blanks: reserved words, aliases and expansions.
- Sequences are unbounded naturals; the reader rejects those over 63 bits.
