/**
 * The prefetch queue and the rooms it drives, as one value: what every operation of the queue,
 * the cancel handler, config removal and process restart does to it.
 *
 * Grain: one operation is one step. In particular taking a job off the FIFO and marking its room
 * `running`, queueing a room and pushing its job, and a worker's commit together with its
 * parent's handling, are single steps here.
 */
module QueueSpec {
  import opened Wrappers
  import opened RoomDb

  /** Process-wide settings. */
  datatype Limits = Limits(parallelism: nat, maxBacklogMs: int, fallbackMs: int)

  datatype Source = NewConfig | ManualRefetch | SchedulerDue

  /** `avgMs` is the usable average at enqueue time, from which the wait was estimated. */
  datatype Job = Job(
    hash: string, roomId: nat, user: string, source: Source,
    queuePosition: nat, estimatedWaitMs: Option<nat>, avgMs: Option<nat>)

  /**
   * `history` lists the outcomes of each room's finished runs and `accepted` counts the runs
   * each room accepted; nothing reads them, they state what happened.
   */
  datatype Server = Server(
    db: Db, fifo: seq<Job>, running: seq<Job>, children: set<string>, pendingCancel: set<string>,
    history: map<nat, seq<Status>>, accepted: map<nat, nat>)

  function CeilDiv(a: nat, b: nat): (r: nat)
    requires b >= 1
    ensures (r - 1) * b < a <= r * b
  {
    (a + b - 1) / b
  }

  function EstimateBacklogMs(waitingJobs: nat, avgMs: nat, parallelism: nat): nat
    requires parallelism >= 1
  {
    CeilDiv(waitingJobs, parallelism) * avgMs
  }

  function EstimateWaitMs(position: nat, avgMs: nat, parallelism: nat): nat
    requires parallelism >= 1 && position >= 1
  {
    CeilDiv(position - 1, parallelism) * avgMs
  }

  function UsableAvg(avg: Option<int>): Option<nat> {
    if avg.Some? && avg.value > 0 then Some(avg.value) else None
  }

  function HistoryOf(s: Server, roomId: nat): seq<Status> {
    if roomId in s.history then s.history[roomId] else []
  }

  function AcceptedOf(s: Server, roomId: nat): nat {
    if roomId in s.accepted then s.accepted[roomId] else 0
  }

  function Record(s: Server, roomId: nat, outcome: Status): Server {
    s.(history := s.history[roomId := HistoryOf(s, roomId) + [outcome]])
  }

  function RecordAll(s: Server, jobs: seq<Job>, outcome: Status): Server {
    if jobs == [] then s
    else Record(RecordAll(s, jobs[..|jobs| - 1], outcome), jobs[|jobs| - 1].roomId, outcome)
  }

  // Starting jobs

  /** Shift, mark the room `running`, spawn the worker. */
  function StartNext(s: Server): Server
    requires s.fifo != []
  {
    var job := s.fifo[0];
    s.(db := SetStatus(s.db, job.roomId, Running), fifo := s.fifo[1..], running := s.running + [job],
       children := s.children + {job.hash})
  }

  function Drain(s: Server, parallelism: nat): Server
    decreases |s.fifo|
  {
    if |s.running| < parallelism && s.fifo != [] then Drain(StartNext(s), parallelism) else s
  }

  // Enqueue

  datatype EnqueueResult =
    | Accepted(estimatedWaitMs: Option<nat>, queuePosition: nat, roomId: nat)
    | BacklogExceeded
    | AlreadyActive
    | ConfigNotFound

  function BacklogAvg(limits: Limits, avg: Option<int>): int {
    if UsableAvg(avg).Some? then UsableAvg(avg).value else limits.fallbackMs
  }

  function PushJob(s: Server, limits: Limits, avg: Option<int>, hash: string, user: string, source: Source,
                   db: Db, roomId: nat): Server
    requires limits.parallelism >= 1
  {
    var position := |s.fifo| + 1;
    var usable := UsableAvg(avg);
    var wait := if usable.Some? then Some(EstimateWaitMs(position, usable.value, limits.parallelism)) else None;
    s.(db := ClearLogs(db, hash),
       fifo := s.fifo + [Job(hash, roomId, user, source, position, wait, usable)],
       accepted := s.accepted[roomId := AcceptedOf(s, roomId) + 1])
  }

  function Enqueue(s: Server, limits: Limits, avg: Option<int>, hash: string, user: string, source: Source)
    : (Server, EnqueueResult)
    requires limits.parallelism >= 1
  {
    if CeilDiv(|s.fifo| + 1, limits.parallelism) * BacklogAvg(limits, avg) > limits.maxBacklogMs then
      (s, BacklogExceeded)
    else
      var (db, outcome) := TryQueueRoom(s.db, hash, user);
      match outcome
      case ActiveSync => (s.(db := db), AlreadyActive)
      case ConfigMissing => (s.(db := db), ConfigNotFound)
      case RoomQueued(roomId) =>
        var pushed := PushJob(s, limits, avg, hash, user, source, db, roomId);
        var job := pushed.fifo[|s.fifo|];
        (Drain(pushed, limits.parallelism), Accepted(job.estimatedWaitMs, job.queuePosition, roomId))
  }

  // Taking a hash's jobs out of the FIFO

  function JobsOf(jobs: seq<Job>, hash: string): seq<Job> {
    if jobs == [] then []
    else JobsOf(jobs[..|jobs| - 1], hash)
         + if jobs[|jobs| - 1].hash == hash then [jobs[|jobs| - 1]] else []
  }

  function JobsExcept(jobs: seq<Job>, hash: string): seq<Job> {
    if jobs == [] then []
    else JobsExcept(jobs[..|jobs| - 1], hash)
         + if jobs[|jobs| - 1].hash == hash then [] else [jobs[|jobs| - 1]]
  }

  function Renumber(jobs: seq<Job>): (r: seq<Job>)
    ensures |r| == |jobs|
  {
    seq(|jobs|, i requires 0 <= i < |jobs| => jobs[i].(queuePosition := i + 1))
  }

  function Purge(s: Server, hash: string): Server {
    s.(fifo := Renumber(JobsExcept(s.fifo, hash)))
  }

  function CloseJobs(db: Db, jobs: seq<Job>, reason: string): Db {
    if jobs == [] then db
    else CloseRoom(CloseJobs(db, jobs[..|jobs| - 1], reason), jobs[|jobs| - 1].roomId, Cancelled, reason)
  }

  function CancelQueued(s: Server, hash: string): (Server, bool) {
    var removed := JobsOf(s.fifo, hash);
    var s1 := Purge(s, hash);
    var s2 := RecordAll(s1.(db := CloseJobs(s1.db, removed, USER_CANCELLED)), removed, Cancelled);
    if removed != [] then (s2.(db := MaybeResetTerminal(s2.db, hash)), true) else (s2, false)
  }

  /** Signals the tracked worker, or closes a room no worker is tracked for. */
  function RequestCancelRunning(s: Server, hash: string, roomId: nat): Server {
    if hash in s.children then s.(pendingCancel := s.pendingCancel + {hash})
    else s.(db := MaybeResetTerminal(CloseRoom(s.db, roomId, Cancelled, USER_CANCELLED), hash))
  }

  datatype CancelReply = CancelNotLinked | NothingToCancel | NotTheTrigger | CancelledQueued | CancelledRunning

  function PostHashCancel(s: Server, hash: string, user: string): (Server, CancelReply) {
    if !(hash in s.db.configs && user in s.db.configs[hash].users) then (s, CancelNotLinked)
    else
      match LinkedRoom(s.db, hash)
      case None => (s, NothingToCancel)
      case Some(roomId) =>
        if roomId !in s.db.rooms || !IsActive(s.db.rooms[roomId].status) then (s, NothingToCancel)
        else if s.db.rooms[roomId].triggeredBy != user then (s, NotTheTrigger)
        else if s.db.rooms[roomId].status == Some(Queued) then
          var (s1, removed) := CancelQueued(s, hash);
          (if removed then s1 else s1.(db := CancelQueuedRoom(s1.db, hash, USER_CANCELLED)), CancelledQueued)
        else (RequestCancelRunning(s, hash, roomId), CancelledRunning)
  }

  // A worker ends

  /** What the worker process reported; `OkThenError` is a database error while handling an ok report. */
  datatype Report = ReportOk | ReportFailed(message: string) | SpawnError(message: string) | OkThenError(message: string)

  /** `committed`: the worker's replace transaction landed. A worker reports ok only after that. */
  datatype Exit = Exit(committed: bool, report: Report) {
    predicate Possible() {
      (report.ReportOk? || report.OkThenError? ==> committed) && (report.SpawnError? ==> !committed)
    }
  }

  function ClosedReason(trimmed: string): string {
    if trimmed == "" then "prefetch_sync_failed" else if |trimmed| > 240 then trimmed[..240] else trimmed
  }

  /** How a run ends: ok wins over a pending cancel, a pending cancel over any failure. */
  function Verdict(exit: Exit, cancelRequested: bool): Status {
    match exit.report
    case ReportOk => Completed
    case OkThenError(_) => Failed
    case _ => if cancelRequested then Cancelled else Failed
  }

  /** The parent's handling of the report, before its `finally` part. */
  function HandleReport(s: Server, job: Job, report: Report): Server {
    var pending := job.hash in s.pendingCancel;
    var s1 := s.(pendingCancel := s.pendingCancel - {job.hash});
    match report
    case ReportOk => s1.(db := ReconcileSuccess(s1.db, job.hash, job.roomId))
    case OkThenError(message) => s1.(db := CloseRoom(s1.db, job.roomId, Failed, ClosedReason(message)))
    case ReportFailed(message) =>
      if pending then s1.(db := CloseRoom(s1.db, job.roomId, Cancelled, USER_CANCELLED))
      else s1.(db := CloseRoom(s1.db, job.roomId, Failed, ClosedReason(message)))
    case SpawnError(message) =>
      if pending then s1.(db := CloseRoom(s1.db, job.roomId, Cancelled, USER_CANCELLED))
      else s1.(db := CloseRoom(s1.db, job.roomId, Failed, ClosedReason(message)))
  }

  function WorkerCommit(s: Server, job: Job, committed: bool): Server {
    if committed then s.(db := FinalizeRun(s.db, job.roomId)) else s
  }

  function WorkerExit(s: Server, parallelism: nat, i: nat, exit: Exit): Server
    requires i < |s.running|
  {
    var job := s.running[i];
    var s1 := WorkerCommit(s, job, exit.committed);
    var s2 := s1.(children := s1.children - {job.hash});
    var s3 := HandleReport(s2, job, exit.report);
    var s4 := s3.(running := s3.running[..i] + s3.running[i + 1..]);
    var s5 := Record(s4, job.roomId, Verdict(exit, job.hash in s.pendingCancel));
    Drain(s5.(db := MaybeResetTerminal(s5.db, job.hash)), parallelism)
  }

  // Users and configs

  function LinkUser(s: Server, hash: string, user: string): Server {
    s.(db := UpsertConfig(s.db, hash, user))
  }

  datatype RemoveReply = RemoveNotLinked | Unlinked | Removed | SyncStillActive

  function RemoveConfigForLastUser(s: Server, hash: string): (Server, RemoveReply) {
    if RoomStatus(s.db, hash) == Some(Running) || RoomStatus(s.db, hash) == Some(Fetching) then (s, SyncStillActive)
    else
      var removed := JobsOf(s.fifo, hash);
      var s1 := Purge(s, hash);
      var s2 := RecordAll(s1.(db := CloseJobs(s1.db, removed, CONFIG_DELETED)), removed, Cancelled);
      var db := DeleteConfigCascade(CancelQueuedRoom(s2.db, hash, CONFIG_DELETED), hash);
      (s2.(db := db), Removed)
  }

  function RemoveUser(s: Server, hash: string, user: string): (Server, RemoveReply) {
    if !(hash in s.db.configs && user in s.db.configs[hash].users) then (s, RemoveNotLinked)
    else if s.db.configs[hash].users - {user} != {} then (s.(db := UnlinkUser(s.db, hash, user)), Unlinked)
    else RemoveConfigForLastUser(s, hash)
  }

  // Crash and restart

  /** Commits of workers that landed before the process died. */
  function LandCommits(s: Server, jobs: seq<Job>, landed: set<string>): Server {
    if jobs == [] then s
    else
      var job := jobs[|jobs| - 1];
      var s1 := LandCommits(s, jobs[..|jobs| - 1], landed);
      if job.hash in landed then Record(WorkerCommit(s1, job, true), job.roomId, Completed)
      else Record(s1, job.roomId, Failed)
  }

  /** The state just before the sweep of the next process: memory gone, tables kept. */
  function Crash(s: Server, landed: set<string>): Server {
    RecordAll(LandCommits(s, s.running, landed), s.fifo, Failed).(
      fifo := [], running := [], children := {}, pendingCancel := {})
  }

  ghost function Restart(s: Server, landed: set<string>, rows: seq<LinkedRow>): Server {
    var s1 := Crash(s, landed);
    s1.(db := Sweep(s1.db, rows))
  }
}
