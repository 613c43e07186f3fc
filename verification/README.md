# Verified model of the FlumeTV sync engine

FlumeTV keeps, for every provider configuration (identified by a hash), a catalog of live channels,
movies and series in PostgreSQL. A prefetch job refreshes it: it waits in an in-memory FIFO, takes
one of a fixed number of slots, runs in a worker process that downloads and formats the provider's
lists and replaces the catalog in one transaction, and reports progress and log lines on the way.
A `room` row per configuration shows where its job stands.

This project models that engine in Dafny 4.11 and proves its properties. `dafny verify
dfyconfig.toml` checks everything.

## The pieces

- **Queue and rooms.** `RoomDb` holds the tables and their statements, `QueueSpec` the operations of
  the queue, the cancel handler, config removal and restart. `QueueServer` is the same process as an
  object with fields, loops and early returns: its public operations compute what the specification
  says and keep the object in a state that runs of the protocol keep to. `RoomInvariant`, `RoomSteps`,
  `RoomSweep` and `RoomRestart` prove the invariant step by step, `RoomProtocol` states what holds in
  every state of every run. `QueueEffects` says of each operation which jobs go where and what every
  room and config reads afterwards, in lists, maps and literal values. `WorkerProcess` takes one worker apart into its statements and says how
  its run can end.
- **Time.** `Admission` gives the queue a clock and slots with identities, under any interleaving of
  pushes, purges, drains and ends; `AdmissionBound` shows its bound is the best possible;
  `QueueTickets` adds conservation and order; `QueueTimed` shows the queue's operations to be steps of
  this model.
- **Between awaits.** `HandoverWindow` takes enqueue, run, cancel, removal and reset apart into single
  awaits; `HandoverAlone` says what each request does when nothing comes in between.
- **Catalogs.** `Playlist` reads an M3U file and `PlaylistLines` says what its lines mean, `DirectCatalog` says what its catalog is and
  `DirectFactory` builds it, `DirectCatalogLaws` says what is kept and
  `DirectFiling` where each entry ends up. `CatalogTables`, `CatalogDb`,
  `CatalogLaws` and `CatalogListing` are the tables, the writing transaction, and what a reader finds
  afterwards; `DirectSync` joins all of it. `XtreamCatalog` is the category list of an Xtream panel; its
  transaction is the direct one without episodes.
- **Identity.** `JsonText`, `CanonicalJson` and `ConfigIdentity`: the text that is hashed; `JsonShape`
  writes it out unit by unit.
- **Migrations.** `Migrations` (many processes, statement by statement), `MigrationAlone` (a run nothing
  interrupts) and `MigrationRunner` (the runner as an object).
- **Logs, progress, proxy.** `LogDelivery`, `LogBroadcaster`, `Progress`, `StreamProxy`.
- **Shared.** `Wrappers`, `Arithmetic`, `Decimal`, `FirstOccurrences`.

## Step grain and assumptions

- `QueueSpec`, `QueueServer` and `RoomProtocol` take each operation as one step: shift and
  `room := running`, the room transaction and the push, and the worker's commit with its parent's
  handling. Database calls succeed there, except that handling an ok report may fail
  (`OkThenError`); a crash may come between any two operations and decides per worker whether its
  commit landed. Children die with a crashed parent. Counting a config's other users and deleting
  it are one step.
- `Admission` and `QueueTickets` need only the synchronous pieces to be atomic: one drain step, one
  push, one purge. Time passes only while no drain is due. `maxRun` bounds every run.
- `HandoverWindow` steps from await to await. Its cancels are those that pass the authorization
  checks; a request acts on the status it read, however old. Draining may happen whenever a slot is
  free. One process, no restart; database calls succeed, except while a run's report is handled.
- `WorkerProcess` lets every await of the worker throw, also after its COMMIT, and the process die at
  any moment; the parent may lose the end of its output.
- `Migrations` has one step per SQL statement; a transaction shows nothing until it commits. Older
  releases may run beside newer ones when their files are a first part of the newer ones'. A crash
  ends the database session and with it the advisory lock.
- `CatalogDb` and `MigrationRunner` may lose their connection after any number of statements, and a
  COMMIT may land whose answer is lost. Serial keys handed out by an aborted transaction are not
  handed out again.
- `LogDelivery` steps from await to await, for one hash between two resets of its log; a COMMIT may
  land whose answer is lost.
- Numbers in JSON payloads are integers, and progress ratios are reals where the program has floats.
- Parallelism is at least one. Regular expressions for season, episode and movie detection, URL
  parsing and the proxy service are parameters.

## What the proofs found

1. A hash keeps at most one live job throughout exactly when no enqueue finds it in an open stage
   (`HandoverWindow.UniqueIffNoOpenEnqueue`), and beside a live job an enqueue is accepted in the open
   stages only (`AcceptedIffOpen`). A stage is open when the worker's transaction has set the room
   `idle` (src/database/directCatalogSync.db.ts:497) or the run is closed while the parent still holds
   the slot (`HandoverOpens`); when a cancel found the job between its room transaction and its push,
   off the FIFO and not yet marked, marked and not yet spawned, or ended and not yet handled, and so
   closed the room under it (`CancelOpens`); when the reset that follows an earlier run lands late
   (`LateResetOpens`); and when the config was removed under the job and created again
   (`RemovalOpens`). Two workers can be at one hash's catalog at once exactly when there are two slots
   (`TwoWritersIffTwoSlots`).
2. Admission compares the FIFO's length before an await with the cap and pushes after it. A job is
   within the cap exactly when the backlog estimate for the position it was really pushed at is
   (`AdmissionBound.CapKeptIff`); a check on a stale length can let it exceed the cap
   (`CheckBeforeAwaitCanOvershoot`).
3. The migration runner's baseline branch is not one transaction and does not look at how much of the
   schema is there. On a schema of the first `n` files without versions it fixes for good how many
   files count as recorded: all the process ships if it goes to the end, those it got to if it stops
   (`Migrations.LeavingFixesTheRecord`). Ever after, schema and versions agree exactly when that number
   is `n`; a file is applied twice exactly when it is less and anything was applied since, and a file
   is recorded that was never applied exactly when it is more (`RecordDecides`,
   `BaselineTruthfulIffComplete`, `StoppedBaselineRepeatsIff`). From a database the runner itself made
   the branch is never entered.
4. A log line reaches a client exactly when it was broadcast after the client registered, or was
   stored when the client replayed and stood within the cap of 500 (`LogDelivery.ReceivedIff`). So a
   client misses nothing exactly when no line broadcast before it registered stood beyond the cap, and
   no line whose COMMIT was not answered, which skips the broadcast, stands beyond it or came after the
   replay (`NoGapIff`).
5. A series' group key can stand for two different groups and titles exactly when one of them holds
   a NUL character (`DirectCatalog.GroupKeyUnambiguousIff`). The episode key built on it is injective
   for any group key.
6. `stableStringify` prints `undefined` as `null`. Up to that and member order it is injective.
7. The fallback name "Uncategorized" of the direct factory is never used
   (`DirectCatalog.LabelIsCategoryName`).

## Model

| member | source | states |
|---|---|---|
| RoomProtocol.RoomAndQueueAgree | src/core/prefetchSyncQueue.ts:53-284 | in every reachable state a hash has at most one job, waiting or working; its room is `queued` iff the job waits, `running` iff it works, and rests otherwise; the job carries the linked room's id |
| RoomProtocol.SlotsRespected | src/core/prefetchSyncQueue.ts:121-144 | never more running jobs than slots, and jobs wait only when every slot is taken |
| RoomProtocol.RecordedPositionsBound | src/core/prefetchSyncQueue.ts:174-233 | over whole runs a waiting job stands no further back than its recorded position, and its recorded wait is at least the estimate for where it stands |
| RoomProtocol.ReferencesHold | src/database/providerConfig.db.ts:291-379 | over whole runs every config row has a user, every job's hash has a config row, no two configs share a room |
| RoomProtocol.OutcomeHistory | src/database/room.db.ts:246-267 | `last_outcome` is the outcome of the last finished run; every accepted run has ended exactly once or is the live one |
| RoomProtocol.EnqueueKeepsOutcomes | src/database/room.db.ts:273-331 | enqueueing, refused or accepted, changes no recorded outcome |
| RoomProtocol.CompletedOnlyIfCommitted | src/core/prefetchSyncQueue.ts:67-120 | a run is recorded `completed` only in a step in which its catalog replacement committed; that an ok report implies the commit is CompletedMeansReplaced |
| RoomProtocol.CompletedMeansReplaced | src/workers/prefetchSyncWorker.ts:81-114 | however a worker went, was killed and was heard: its run is recorded `completed` iff an ok line was heard and handled, and then its replace transaction had landed |
| WorkerProcess.PossibleIffComesAbout | src/core/prefetchSyncWorkerProcess.ts:399-498 | the ends of a run assumed of worker and parent are exactly those some course of the worker and its output brings about, up to the words of a failure |
| WorkerProcess.AtMostOneResult | src/workers/prefetchSyncWorker.ts:39-114 | a worker prints at most one result line, and prints it last |
| WorkerProcess.OrdinaryWorker | src/workers/prefetchSyncWorker.ts:81-114 | a worker that goes through prints its lines and an ok line with at least a millisecond; its run ends ok, or as a failure without a result if the parent lost that line |
| WorkerProcess.LogsInOrder | src/workers/prefetchSyncWorker.ts:39-114 | its log lines stand on stdout in the order it wrote them, and it has committed iff its transaction landed |
| RoomProtocol.SweptTablesAreInitial | src/core/roomLifecycle.ts:149-168 | any tables the schema allows, once swept, are the start of a run |
| RoomProtocol.CancelReachesItsRun | src/core/prefetchSyncQueue.ts:67-120 | a cancel of a working run ends it `cancelled` unless its worker reported ok, and leaves no pending flag behind |
| RoomProtocol.PendingCancelIsForTheLiveRun | src/core/prefetchSyncQueue.ts:263-284 | a pending cancel always belongs to the one working run of its hash, never to a waiting one |
| RoomProtocol.WorkDrains | src/core/prefetchSyncQueue.ts:121-144 | while work is left some worker runs, each worker end takes one run off, and without work every room rests |
| RoomProtocol.WorkNeverGrows | src/core/prefetchSyncQueue.ts:121-284 | links, cancels, removals and restarts never add work |
| RoomProtocol.WorkRunsOut | src/core/prefetchSyncQueue.ts:121-144 | over any stretch of a run without enqueues, after as many worker ends as there was work every room rests |
| RoomProtocol.RunKeeps | src/core/prefetchSyncQueue.ts:130-284 | every state of every run satisfies the invariant |
| RoomSteps.LinkUserKeeps | src/database/providerConfig.db.ts:335-379 | adding a user or a config keeps the invariant; a config without a room gets its own, idle, any other keeps its room and status |
| RoomSteps.EnqueueKeeps | src/core/prefetchSyncQueue.ts:149-207 | an enqueue from any source keeps the invariant; it is accepted iff the backlog is within the cap, the config exists and the hash has no job, each refusal has its exact condition and changes nothing, and then the hash alone gains a job |
| RoomSteps.PostHashCancelKeeps | src/handlers/hashOps.handler.ts:83-155 | each reply of the cancel decision tree tells what changed; queue and room agree afterwards in every case |
| RoomSteps.CancelQueuedKeeps | src/core/prefetchSyncQueue.ts:239-257 | cancelling a queued hash takes its one job, leaves the others in order with new positions, and its room is idle with outcome `cancelled` |
| RoomSteps.WorkerExitKeeps | src/core/prefetchSyncQueue.ts:53-128 | every way a worker can end keeps the invariant, takes exactly its hash off the busy ones, adds its verdict to the history and leaves the queue drained |
| RoomSteps.RemoveLastUserKeeps | src/core/lastUserHashRemoval.ts:15-43 | removal is refused iff the hash is running; otherwise job, room, config and log rows of the hash go and those of other hashes stay |
| RoomSteps.RemoveUserKeeps | src/database/providerConfig.db.ts:273-329 | removing any user, last or not, keeps the invariant |
| RoomInvariant.DrainKeeps | src/core/prefetchSyncQueue.ts:130-144 | draining keeps the invariant and ends with full slots or an empty FIFO |
| RoomSweep.SweepEffect | src/core/roomLifecycle.ts:116-168 | from any tables: orphan rooms go, active rooms become failed with one more log line, terminal ones idle, others keep outcome and log |
| RoomSweep.SweepConverges | src/core/roomLifecycle.ts:149-168 | after a sweep no room is active or terminal, and a second sweep changes nothing |
| RoomRestart.CrashEffect | src/core/roomLifecycle.ts:116-143 | a crash ends every run exactly once, as completed where the commit landed and as failed elsewhere |
| RoomRestart.RestartKeeps | src/core/roomLifecycle.ts:149-168 | crash and sweep together re-establish the invariant with all rooms at rest |
| QueueEffects.DrainStartsFirst | src/core/prefetchSyncQueue.ts:130-144 | with n the smaller of free slots and waiting jobs, the drain takes the first n off the FIFO and puts them behind the running ones in that order; their rooms are `running`, every other room and field is as before |
| QueueEffects.EnqueueDoes | src/core/prefetchSyncQueue.ts:149-207 | each reply iff its condition on backlog, config and jobs; an accepted job stands last in the row of waiting jobs with its position and wait, its room reads as queued or running, and the first jobs go to work |
| QueueEffects.ExitDoes | src/core/prefetchSyncQueue.ts:53-128 | an end takes this job off the running ones, its room is idle with the outcome and reason its report calls for, and the first waiting jobs take the slots |
| QueueEffects.CancelDoes | src/handlers/hashOps.handler.ts:83-155 | each reply iff its condition on link, room, trigger and jobs, and what rooms, FIFO, flags and history are after it |
| QueueEffects.RemoveDoes | src/handlers/deleteConfig.handler.ts:15-67 | `Unlinked` iff others remain, and then only the config's users change; `SyncStillActive` iff the last user asks while a worker runs; `Removed` takes config, room, log and waiting job of this hash and nothing else |
| QueueEffects.LinkDoes | src/database/providerConfig.db.ts:335-379 | the user joins those linked already; a config without a room gets the next one, idle |
| QueueEffects.SweepDoes | src/core/roomLifecycle.ts:149-168 | rooms linked from a config read idle, active ones with outcome `failed` and reason `process_restarted`; unlinked ones are gone |
| QueueEffects.RestartDoes | src/core/roomLifecycle.ts:116-168 | after a crash and the sweep each config's room tells how its run ended: completed iff it worked and its commit landed, failed otherwise, untouched without a run |
| QueueEffects.GuardsHold | src/database/room.db.ts:273-331 | on any tables: queueing refuses a missing config and a room that is queued, running or fetching, removal one that is running or fetching |
| QueueEffects.StrayRoomIsClosed | src/handlers/hashOps.handler.ts:119-133 | on any tables: a cancel of a `queued` room that no waiting job stands behind closes it as cancelled |
| QueueEffects.UntrackedRunIsClosed | src/core/prefetchSyncQueue.ts:263-284 | a cancel of a run no worker is tracked for closes the room as cancelled and brings it to rest |
| QueueEffects.ReconcileCloses | src/core/roomLifecycle.ts:37-60 | after an ok report a room still active is closed as completed, any other is left |
| QueueServer.PrefetchServer.EnqueueSyncJob | src/core/prefetchSyncQueue.ts:149-207 | on a valid process: accepted iff within the cap, configured and idle; the job stands last, the first waiting jobs take the free slots, no other hash's room changes otherwise; the process stays valid |
| QueueServer.PrefetchServer.ScheduleDrain | src/core/prefetchSyncQueue.ts:130-144 | with n the smaller of free slots and waiting jobs: the FIFO loses its first n, the running list gains those n in order, their rooms are `running` and their children tracked |
| QueueServer.PrefetchServer.PurgePrefetchSyncQueueJob | src/core/prefetchSyncQueue.ts:209-233 | removes the hash's jobs, keeps the others in order, renumbers them from 1 |
| QueueServer.PrefetchServer.CancelQueuedPrefetchJob | src/core/prefetchSyncQueue.ts:239-257 | equals the specified purge, closing and reset; tells whether a job was removed |
| QueueServer.PrefetchServer.HandlePostHashCancel | src/handlers/hashOps.handler.ts:83-155 | each reply iff its condition; a queued hash loses its job and the others keep order with new positions, a running one has its worker flagged, any other reply changes nothing; the process stays valid |
| QueueServer.PrefetchServer.FinishQueueJob | src/core/prefetchSyncQueue.ts:53-128 | whatever way the worker ended: its job is gone, its room idle with the reported outcome, the first waiting jobs take the slots, everything else stays; the process stays valid |
| QueueServer.PrefetchServer.GetWaitingPrefetchJob | src/core/prefetchSyncQueueState.ts:18-29 | finds the hash's first waiting job, or none exactly when none waits |
| QueueServer.PrefetchServer.UpsertHashConfigAndUserBridge | src/database/providerConfig.db.ts:335-379 | keeps the process valid; the user is linked and a config without a room has a new idle one |
| QueueServer.PrefetchServer.RemoveHashConfigForLastUser | src/core/lastUserHashRemoval.ts:15-43 | keeps the process valid; refused iff a worker is at the hash, otherwise config and jobs of the hash are gone |
| QueueServer.PrefetchServer.HandleDeleteConfig | src/handlers/deleteConfig.handler.ts:15-67 | `Unlinked` iff the user is linked and others are, and then the config keeps the others and rooms, logs, FIFO and running jobs stay; the last user takes the hash along unless a worker is at it; the process stays valid |
| QueueServer.PrefetchServer.SweepTerminalRoomsOnStartup | src/core/roomLifecycle.ts:149-168 | makes a process valid from any tables its predecessor left, with every room at rest, and counts the rooms that were active |
| Admission.StartsWithinBacklogEstimate | src/core/prefetchSyncQueue.ts:44-51 | every job that starts does so within the backlog estimate for its push position, whatever is purged or pushed meanwhile |
| Admission.WaitsWithinBacklogEstimate | src/core/prefetchSyncQueue.ts:44-51 | a job still waiting is within that bound too |
| Admission.StartsWithinCap | src/core/prefetchSyncQueue.ts:149-170 | the configured cap holds when the FIFO did not grow between the admission check and the push |
| Admission.ReportedWaitBrackets | src/core/prefetchSyncQueue.ts:44-51 | reported wait <= bound <= reported wait + one average run |
| AdmissionBound.BoundIsTight | src/core/prefetchSyncQueue.ts:44-51 | for every number of slots and position a run, in which no hash is pushed that has a job, makes the job wait exactly its estimate |
| AdmissionBound.CapKeptIff | src/core/prefetchSyncQueue.ts:149-181 | the cap is kept for a position in all such runs iff the estimate for that position is within it |
| AdmissionBound.CheckBeforeAwaitCanOvershoot | src/core/prefetchSyncQueue.ts:149-181 | in such a run a check that passed on a length seen earlier can let a job exceed the cap |
| QueueTickets.EveryJobInOnePlace | src/core/prefetchSyncQueue.ts:121-233 | under any interleaving every pushed job is waiting, working, finished or purged, exactly one of them |
| QueueTickets.StartsInPushOrder | src/core/prefetchSyncQueue.ts:130-144 | jobs start in the order they were pushed |
| QueueTickets.SlotsAreTheCounter | src/core/prefetchSyncQueue.ts:121-144 | under any interleaving the running count stays within 0..parallelism, is up by one per shift and down by one per end, and a state without a due drain is full or has an empty FIFO |
| QueueTimed.DrainFollows | src/core/prefetchSyncQueue.ts:130-144 | the drain is a row of timed drain steps that start the waiting jobs from the front at one moment and leave none due |
| QueueTimed.EnqueueFollows | src/core/prefetchSyncQueue.ts:149-207 | an accepted enqueue is a timed push at the position it reports, then a drain |
| QueueTimed.ExitFollows | src/core/prefetchSyncQueue.ts:121-128 | a worker's end is a timed end, then a drain |
| QueueTimed.PurgeFollows | src/core/prefetchSyncQueue.ts:209-233 | a purge takes the same jobs off the timed FIFO |
| HandoverWindow.UniqueIffNoOpenEnqueue | src/core/prefetchSyncQueue.ts:53-284 | from await to await, with cancels, removals and resets in between, a hash keeps at most one live job in every state iff no enqueue finds it in an open stage |
| HandoverWindow.AcceptedIffOpen | src/database/room.db.ts:273-331 | beside a live job an enqueue is accepted iff the job has committed, is closed, had its room written by another request since it was last marked, or lost its room to a removal and the config is back |
| HandoverWindow.StepKeeps | src/core/prefetchSyncQueue.ts:53-284 | every await step but an enqueue in an open stage keeps one job per hash and the room active exactly while the job covers it |
| HandoverWindow.FifoHoldsTheWaiting | src/core/prefetchSyncQueue.ts:121-233 | in every state of every run the FIFO holds exactly the waiting jobs, each once |
| HandoverWindow.HandoverOpens | src/database/directCatalogSync.db.ts:486-513 | a committed worker and a closed run are open until the slot is free, and runs reach them |
| HandoverWindow.CancelOpens | src/handlers/hashOps.handler.ts:103-155 | a cancel reaches and opens a job before its push, in the shift window, before its child is tracked, and after its child closed |
| HandoverWindow.LateResetOpens | src/core/roomLifecycle.ts:74-114 | the reset that follows a failed run can land after the next enqueue and open its waiting job |
| HandoverWindow.RemovalOpens | src/core/lastUserHashRemoval.ts:15-43 | a removal in the shift window, followed by a new config, lets a second job in |
| HandoverWindow.TwoWritersIffTwoSlots | src/core/prefetchSyncQueue.ts:130-144 | some run has two workers at one hash's catalog iff there are two slots |
| HandoverAlone.EnqueueAlone | src/core/prefetchSyncQueue.ts:149-207 | its awaits in a row put a job for the room at rest at the end of the FIFO and queue the room |
| HandoverAlone.StartAlone | src/core/prefetchSyncQueue.ts:53-144 | shift, room and spawn in a row start the first job of the FIFO |
| HandoverAlone.SuccessAlone | src/core/prefetchSyncQueue.ts:67-128 | a run that commits leaves room, slot and child free and nothing else changed |
| HandoverAlone.FailureAlone | src/core/prefetchSyncQueue.ts:67-128 | so does a run that fails or is cancelled, once its reset is through |
| HandoverAlone.CancelAlone | src/handlers/hashOps.handler.ts:103-133 | a cancel of a waiting job takes it out of the FIFO, keeps the others in order and brings the room to rest |
| HandoverAlone.RemoveAlone | src/core/lastUserHashRemoval.ts:15-43 | a removal takes the waiting job and the room and nothing else |
| HandoverAlone.ReconcileActsOnItsRead | src/core/roomLifecycle.ts:37-60 | the reconciliation after a run writes the room to rest iff it read it active, whatever became of it since |
| Playlist.ParseEntries | src/services/directCatalog.services.ts:26-67 | the loop with its pending line returns the declared entries of the playlist |
| Playlist.HeaderDescribes | src/services/directCatalog.services.ts:31-51 | line j describes line i iff j is an #EXTINF above i and only blank or other directive lines stand between |
| Playlist.HeaderUsedOnce | src/services/directCatalog.services.ts:56-63 | no #EXTINF describes two URL lines |
| Playlist.AttributesReadBack | src/utils/m3uPlaylist.utils.ts:6-24 | group and logo of a printed entry are read back, present or absent |
| Playlist.PrintReadsBack | src/utils/m3uPlaylist.utils.ts:6-35 | parsing the printed form of any list of printable entries returns that list |
| PlaylistLines.EntryOfLines | src/services/directCatalog.services.ts:26-67 | for any lines: each URL with a header over nothing but blank lines and other directives is one entry, at its own place among them, and says what header and URL say; there are no other entries |
| PlaylistLines.TitleIs | src/utils/m3uPlaylist.utils.ts:9-17 | the title is the trimmed text after the last comma; without one, after the duration; without either, the whole line |
| PlaylistLines.AttributeIs | src/utils/m3uPlaylist.utils.ts:7-8 | an attribute is the quoted value behind the leftmost name, `=` and white space allowed between, the name in either case; absent iff it stands nowhere |
| PlaylistLines.KindsOfLine | src/utils/m3uPlaylist.utils.ts:27-35 | a line is a URL iff its trimmed text starts with http:// or https:// in any case, or rtmp:// or rtsp://; a header iff it starts with #EXTINF; noise iff blank or another # line |
| PlaylistLines.TrimIs | src/services/directCatalog.services.ts:29 | trimming takes off the 25 white space characters at both ends and nothing else |
| DirectFactory.BuildCatalog | src/factories/directCatalogSync.factory.ts:142-280 | the loop over maps, set and counters builds the declared catalog; where that puts each entry is LiveEntryIsFiled, MovieEntryIsFiled and SeriesEntryIsFiled |
| DirectFactory.CommitCategory | src/factories/directCatalogSync.factory.ts:150-181 | a label gets the number of its first use, and known labels keep theirs |
| DirectFactory.CatalogBuilder.AddSeries | src/factories/directCatalogSync.factory.ts:195-206 | the series map keeps category, title and logo of a key's first entry |
| DirectFactory.CatalogBuilder.AddEpisode | src/factories/directCatalogSync.factory.ts:208-225 | an episode is added iff no earlier entry has its identity |
| DirectCatalog.EpisodeKeyInjective | src/factories/directCatalogSync.factory.ts:208 | the episode key tells group key, season and episode apart for any text |
| DirectCatalog.GroupKeyUnambiguousIff | src/factories/directCatalogSync.factory.ts:33-35 | the group key tells group and title apart iff neither holds a NUL |
| DirectCatalog.LabelIsCategoryName | src/factories/directCatalogSync.factory.ts:52-85 | a label is its own category name, so the last fallback is never taken |
| DirectCatalogLaws.NothingIsLost | src/factories/directCatalogSync.factory.ts:192-254 | live streams, movies, episodes and duplicate episodes together are all parsed entries |
| DirectCatalogLaws.EntryBecomesItsStream | src/factories/directCatalogSync.factory.ts:228-253 | a live or movie entry is the stream at its position, with that position as id, under the category of its own label |
| DirectCatalogLaws.StreamComesFromAnEntry | src/factories/directCatalogSync.factory.ts:228-253 | every live or movie stream is some entry's |
| DirectCatalogLaws.PositionsIncrease | src/factories/directCatalogSync.factory.ts:192-254 | entries of a kind keep playlist order |
| DirectCatalogLaws.CategoriesAreInUse | src/factories/directCatalogSync.factory.ts:129-136 | categories are numbered from 1, no name occurs twice, each has an entry |
| DirectCatalogLaws.OneEpisodeForAnEntry | src/factories/directCatalogSync.factory.ts:208-225 | exactly one episode has a series entry's identity, made from the first entry with it |
| DirectCatalogLaws.EpisodesAreDistinct | src/factories/directCatalogSync.factory.ts:208-225 | no two episodes share series, season and number |
| DirectCatalogLaws.EpisodesKeepOrder | src/factories/directCatalogSync.factory.ts:216-224 | episodes stand in the order of their first entries |
| DirectCatalogLaws.OneSeriesForAKey | src/factories/directCatalogSync.factory.ts:256-269 | each series entry's key has exactly one series |
| DirectCatalogLaws.SeriesFiledByFirstEntry | src/factories/directCatalogSync.factory.ts:200-206 | a series carries title, logo and category of its key's first entry |
| DirectFiling.LiveEntryIsFiled | src/factories/directCatalogSync.factory.ts:241-253 | an entry that is neither series nor movie-like is the live stream numbered among its kind, with its own title, logo and extension, under its trimmed group or "Live" |
| DirectFiling.MovieEntryIsFiled | src/factories/directCatalogSync.factory.ts:227-240 | a movie-like entry is such a movie, with its URL, under its trimmed group or "Movies" |
| DirectFiling.SeriesEntryIsFiled | src/factories/directCatalogSync.factory.ts:195-225 | an entry with a season and episode has its series row and its episode under one key of its group and series name; each carries what the first entry behind it says, the row under its trimmed group or "Series" |
| CatalogDb.CatalogClient.ReplaceCatalog | src/database/directCatalogSync.db.ts:455-515 | catalog, sync time and room are replaced, set and closed as completed together or all left as they were, whatever statement fails; the sync time of this hash alone is set, if its row exists; ok is reported only if it landed; on a holding connection it succeeds iff the hash is known or there is nothing to insert |
| CatalogDb.CatalogClient.Purge | src/database/directCatalogSync.db.ts:276-280 | streams, then categories of the hash go, episodes with their series; no foreign key stops it |
| CatalogDb.CatalogClient.InsertSection | src/database/directCatalogSync.db.ts:282-377 | inserts categories, then exactly the streams whose category is known, under the mapped row ids |
| CatalogDb.CatalogClient.InsertSeriesWithEpisodes | src/database/directCatalogSync.db.ts:379-449 | the same for series, and episodes under the row id of their group key |
| CatalogLaws.ReplacedKeepsConstraints | src/database/directCatalogSync.db.ts:282-515 | after the replacement every foreign key and UNIQUE (series_id, season, episode) holds |
| CatalogLaws.OtherHashesUntouched | src/database/directCatalogSync.db.ts:276-515 | rows of other hashes keep ids and contents in every table |
| CatalogListing.ReplacedLists | src/database/directCatalogSync.db.ts:282-377 | streams joined to categories list exactly the new catalog's streams with a known category, in order |
| CatalogListing.ReplacedCategories | src/database/directCatalogSync.db.ts:282-377 | the hash's category rows in a section are exactly the new catalog's categories, in order |
| CatalogListing.ReplacedListsEpisodes | src/database/directCatalogSync.db.ts:379-449 | episodes joined to series list exactly the new catalog's, each under the series of its key |
| DirectSync.SyncDirect | src/core/directPrefetchSync.ts:31-96 | lines to rows: the playlist's catalog is stored with sync time and completed room, or all three are as before; constraints hold, only a missing config row can stop it |
| DirectSync.EntriesAreListed | src/factories/directCatalogSync.factory.ts:142-280 | the stored live and movie listings are the playlist's entries of that kind, all, in order, each under its own label |
| DirectSync.SeriesAreListed | src/factories/directCatalogSync.factory.ts:195-269 | the stored series listing has one row per series key, in order of first entries, with title, logo and label of that entry |
| DirectSync.CategoriesAreListed | src/factories/directCatalogSync.factory.ts:129-181 | the stored category rows of a section are its entries' labels, each once, numbered from 1 in order of first use |
| DirectSync.EpisodesAreListed | src/database/directCatalogSync.db.ts:432-448 | the stored episodes are the catalog's, each under its own series |
| DirectSync.EntryIsStored | src/core/directPrefetchSync.ts:31-96 | the stored live or movie listing has entry i of the playlist at its number among its kind, with its own title, logo, extension and URL, under its trimmed group or "Live" or "Movies", and as many rows as such entries |
| XtreamCatalog.CategoriesFromPanel | src/factories/xtreamCatalogSync.factory.ts:18-38 | one category per panel id in order of first appearance, with the last row's name |
| XtreamCatalog.CategoriesForIds | src/factories/xtreamCatalogSync.factory.ts:41-65 | panel categories, then one per missing id, each id once |
| XtreamCatalog.EveryIdIsNamed | src/factories/xtreamCatalogSync.factory.ts:41-65 | a needed id has the panel's last name for it or a synthetic one; no other id is invented |
| XtreamCatalog.NameIs | src/factories/xtreamCatalogSync.factory.ts:29-62 | an id's name is the trimmed name in the panel's last row for it, "Unknown" if that is blank; for an unlisted id the given label if it is -999999, else "Category " and the id |
| XtreamCatalog.PanelOrder | src/factories/xtreamCatalogSync.factory.ts:18-38 | panel categories stand in the order in which their ids first come up |
| XtreamCatalog.NeedOrder | src/factories/xtreamCatalogSync.factory.ts:41-65 | the missing ones follow, in the order in which they are first needed |
| XtreamCatalog.EveryStreamIsStored | src/database/xtreamCatalogSync.db.ts:248-393 | so the transaction stores every formatted stream, in order, under the panel's trimmed name for its category, "Unknown", or the made-up one |
| CanonicalJson.ReadUndoesPrint | src/utils/configHash.utils.ts:20-48 | a parser reads the printed text of any value back and stops at its end, whatever follows that does not start with a digit |
| CanonicalJson.PrintedTextReadsBack | src/utils/configHash.utils.ts:20-48 | what is read back is the value up to member order |
| CanonicalJson.SameTextIffEquivalent | src/utils/configHash.utils.ts:17-48 | two values print alike iff they are equal up to member order at every level, `undefined` counting as `null` |
| JsonShape.LessIff | src/utils/configHash.utils.ts:38 | a key comes before another iff it is a proper prefix of it or has the lower code unit where they first differ |
| JsonShape.ObjectText | src/utils/configHash.utils.ts:36-46 | an object prints as `{`, its members with commas between, `}`: each member once, keys ascending by code unit, each as quoted key, colon and value |
| JsonShape.ArrayText | src/utils/configHash.utils.ts:30-35 | an array prints as `[`, its items in their order with commas between, `]` |
| JsonShape.StringText | src/utils/configHash.utils.ts:27-29 | a string prints between quotes, unit by unit: quote and backslash escaped, the five short escapes, other controls and unpaired surrogates as `\u` and four lower-case digits, all else as itself |
| JsonShape.NumberText | src/utils/configHash.utils.ts:24-26 | an integer prints as its decimal digits without leading zeros, behind a minus sign if negative |
| JsonShape.WordText | src/utils/configHash.utils.ts:21-26 | null and `undefined` print as null, booleans as true and false |
| JsonText.ReadBodyUndoesEscape | src/utils/configHash.utils.ts:24-29 | string escapes, including lone surrogates, are undone |
| ConfigIdentity.XtreamIdentity | src/utils/configHash.utils.ts:83-97 | two Xtream configs share a preimage iff their normalized fields agree |
| ConfigIdentity.DirectIdentity | src/utils/configHash.utils.ts:100-111 | two direct configs share a preimage iff their normalized fields agree |
| ConfigIdentity.KindsNeverCollide | src/utils/configHash.utils.ts:83-111 | an Xtream and a direct config never share a preimage |
| JsonShape.DirectPreimageText | src/utils/configHash.utils.ts:100-123 | the direct preimage is the object text of epg_offset, epg_url, has_custom_epg, m3u_url and v:1 in that order, with the normalized URLs |
| JsonShape.XtreamPreimageText | src/utils/configHash.utils.ts:83-117 | the Xtream preimage is that of custom_epg, epg_offset, epg_url, has_custom_epg, panel_password, panel_username, url and v:1 |
| Migrations.SchemaIsAPrefix | src/database/migrate.db.ts:34-95 | over all interleavings, errors and crashes: files applied once each in order, versions exactly those, one lock holder, no baseline |
| Migrations.ReturnMeansApplied | src/database/migrate.db.ts:64-95 | a normal return means all files the process ships are applied, then and ever after |
| Migrations.StepKeeps | src/database/migrate.db.ts:64-95 | every single statement of every process keeps the invariant |
| Migrations.EveryStateInShape | src/database/migrate.db.ts:34-95 | in every run, from any first files with any first versions: the schema is what it started with plus the files applied since, from the recorded number on; the versions are the first of all files up to there; one lock holder |
| Migrations.RecordDecides | src/database/migrate.db.ts:34-95 | schema and versions agree iff the recorded number is what the schema held; a file is applied twice iff it is less and anything was applied; a file is recorded unapplied iff it is more |
| Migrations.LeavingFixesTheRecord | src/database/migrate.db.ts:34-62 | leaving the branch to its end, by an error or by a crash with something recorded fixes the recorded number for good |
| Migrations.BaselineTruthfulIffComplete | src/database/migrate.db.ts:34-62 | in every run, ever after the branch ran to its end: schema and versions agree iff the process shipped as many files as the schema held, and a file is applied twice iff it shipped fewer and anything was applied since |
| Migrations.StoppedBaselineRepeatsIff | src/database/migrate.db.ts:56-61 | in every run, ever after an error or crash in the branch: schema and versions agree iff all the schema held was recorded, and a file is applied twice iff less was and anything was applied since |
| Migrations.BaselineCrashRepeatsAFile | src/database/migrate.db.ts:56-61 | a run that does repeat a file after a crash in the branch |
| MigrationAlone.RunAlone | src/database/migrate.db.ts:64-95 | a run nothing interrupts, from any database with versions or without the marker table, applies and records the shipped files it did not find recorded, in order, returns well and frees the lock |
| MigrationAlone.BaselineAlone | src/database/migrate.db.ts:34-62 | on the marker table without versions it records all it ships and applies nothing |
| MigrationRunner.Database.RunPending | src/database/migrate.db.ts:64-95 | one run: all files applied on success, still in agreement on failure, success without a fault |
| MigrationRunner.Database.Baseline | src/database/migrate.db.ts:34-62 | acts only on a schema with the marker table and no versions, and then records every file |
| LogDelivery.LinesAreNumberedInOrder | src/database/streamEventResume.db.ts:110-130 | stored lines are numbered 1, 2, ... without a hole in emission order, leaving out failed appends only; each was broadcast, lost its COMMIT's answer, or is the last and awaits its broadcast |
| LogDelivery.SettledMeansFinished | src/core/prefetchSyncWorkerProcess.ts:146-186 | when the chain rests every emitted line failed or is stored, and every stored one was broadcast unless its COMMIT was not answered |
| LogDelivery.NoGapIff | src/handlers/room.handler.ts:84-99 | a client that registered and replayed misses nothing iff no line broadcast before it registered stood beyond the cap and no line with an unanswered COMMIT stands beyond it or came after the replay |
| LogDelivery.ReceivedIff | src/handlers/room.handler.ts:84-99 | a client has a line iff it was broadcast after the client registered, or stored when it replayed and within the cap |
| LogDelivery.ReceivedIsStored | src/database/roomLogStream.db.ts:158-194 | a client never gets a text under another line's number |
| LogDelivery.LineAlone | src/core/prefetchSyncWorkerProcess.ts:146-186 | the first waiting line gets the next number, is stored under it and reaches every client under it |
| LogDelivery.ClientAlone | src/handlers/room.handler.ts:84-99 | a client that registers and replays has exactly the stored lines after the one it knows, at most 500 numbers on |
| LogBroadcaster.Broadcaster.Broadcast | src/core/roomLogSseBroadcaster.ts:81-100 | every open subscriber of the hash gets the line once, behind what it had, ended ones are dropped, the others stay in order, nobody else gets anything |
| LogBroadcaster.Broadcaster.Register | src/core/roomLogSseBroadcaster.ts:160-168 | adds the client once and changes no other hash |
| LogBroadcaster.Broadcaster.Unsubscribe | src/core/roomLogSseBroadcaster.ts:170-182 | removes the client, keeps the others in order, and drops the hash with its last client |
| Progress.HybridInSlice | src/utils/syncProgress.utils.ts:170-244 | for weight >= 1 the percent stays in [start, start + weight - 1] |
| Progress.HybridIs | src/utils/syncProgress.utils.ts:189-244 | the percent is the start plus the weight's share of bytes over total, or of time over the estimate of at least a second, rounded down and held one below the slice's end |
| Progress.ClampedIs | src/utils/syncProgress.utils.ts:255 | a reported percent is rounded down and held in 0..100 |
| Progress.HybridMonotone | src/utils/syncProgress.utils.ts:189-244 | it is monotone in bytes for a fixed total and in elapsed time |
| Progress.OrderNeedsOneModeIff | src/utils/syncProgress.utils.ts:229-244 | why the order asks for one mode: a total appearing between two samples could lower the percent iff the slice has more than one step |
| Progress.XtreamRunNeverGoesBack | src/services/xtreamCatalog.services.ts:252-450 | the six requests of an Xtream sync report a nondecreasing sequence in 5..75 when each keeps its mode |
| Progress.XtreamStops | src/services/xtreamCatalog.services.ts:252-450 | the six requests end at 12, 25, 32, 50, 57 and 75 |
| Progress.ReportsInOrder | src/services/xtreamCatalog.services.ts:252-450 | each request's reports stand together behind those of the requests before it |
| Progress.MonotonicReporter.Put | src/utils/syncProgress.utils.ts:249-264 | forwards a report iff it is not below the maximum, clamped to 0..100 |
| Progress.ThrottledReporter.Put | src/utils/syncProgress.utils.ts:269-291 | withholds a report iff it is below 100, not above the last percent let through and within the interval; for any calls and any clock the last percent sent is the maximum reported, and sent percents rise |
| Progress.DeliveryComposes | src/core/prefetchSyncWorkerProcess.ts:231-247 | reporters in a row still deliver the maximum |
| Progress.HundredArrives | src/core/prefetchSyncWorkerProcess.ts:231-247 | once 100 was reported it has arrived |
| Progress.WorkerToParent | src/core/prefetchSyncWorkerProcess.ts:231-247 | worker and parent reporter together deliver the maximum of what the job reported |
| StreamProxy.AskAllOrNothing | src/services/mediaflowProxy.services.ts:146-194 | chunking by 50, asking and flattening gives source k entry k % 50 of the reply to chunk k / 50, or nothing when a chunk fails, whatever the replies |
| StreamProxy.ChunksAre | src/services/mediaflowProxy.services.ts:146-194 | chunk n is the sources from 50 n on, at most 50 of them |
| StreamProxy.FetchedInPlace | src/services/mediaflowProxy.services.ts:146-194 | the result has one URL per source, in place: the proxy's answer to it, or all originals after a failure |
| StreamProxy.ProxyStreams | src/core/applyStreamProxy.ts:40-86 | a stream with an http URL gets the URL that the proxy answered to its own resolved URL and filename, and keeps its other fields; with an empty answer, a failing chunk or another URL it stays as it is; order and number stay |
| StreamProxy.ProxyMeta | src/core/applyStreamProxy.ts:109-154 | the same for every stream inside every video; the meta's and videos' other fields stay |
| StreamProxy.VideoIsCollected | src/factories/streamProxy.factory.ts:96-132 | exactly the proxiable streams are collected, each under its own place |
| StreamProxy.KeyInjective | src/factories/streamProxy.factory.ts:134-136 | no two places share a `video:stream` key |

## Left out

- HTTP handlers, authentication, rate limits and Stremio wiring, apart from the cancel decision tree.
- The worker's downloads, and an `error` event of a child that did start (a kill the operating system refuses).
- SHA-256 and URL normalization: identity stops at the hashed text, with normalization as a parameter.
- Regular expressions for season, episode and movie labels, the extension lookup and the splitting of a stream into lines.
- Room progress columns, notifications to room subscribers, the scheduler's own query and the `fetch_timing` average, which is a parameter.
- Catalog columns that are constant or copies of modelled ones (rating, description, full name), and the Xtream stream row mapping field by field.
- Category ids that are finite but not integers: ids are integers here.
- The NUL character that PostgreSQL refuses in text: such an insert would be one more failing statement.
- The sector log reporter, search, pagination, meta and playback factories.
- Log resets between runs in the delivery protocol, and clients that leave the stream half written.
- The read-then-write race of two unchained log appends for one hash: the chain rules it out within a process.
- HandoverWindow.UniqueIffNoOpenEnqueue: does not model restarts at the await grain, nor database errors outside the handling of a report.
- RoomProtocol.RoomAndQueueAgree: is stated for operations as single steps; at the await grain `HandoverWindow` gives the exact condition.
- RoomProtocol.WorkDrains: assumes database calls succeed; a failing status update after the shift would keep its slot taken.
- Admission.StartsWithinCap: one direction; the exact condition is `AdmissionBound.CapKeptIff`.
- Playlist.PrintReadsBack: the format itself cannot carry quotes in attributes or commas in titles; the condition names what it can carry.
