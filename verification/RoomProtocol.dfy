/** Runs of the queue and room machine, and what holds in every state of every run. */
module RoomProtocol {
  import opened Wrappers
  import opened RoomDb
  import opened QueueSpec
  import opened RoomInvariant
  import opened RoomSteps
  import opened RoomSweep
  import opened RoomRestart
  import WorkerProcess

  datatype Event =
    | LinkEvent(hash: string, user: string)
    | EnqueueEvent(avg: Option<int>, hash: string, user: string, source: Source)
    | CancelEvent(hash: string, user: string)
    | ExitEvent(index: nat, exit: Exit)
    | RemoveEvent(hash: string, user: string)
    | RestartEvent(landed: set<string>, rows: seq<LinkedRow>)

  /** The process has just booted on tables no job is at work on. */
  ghost predicate Initial(s: Server, limits: Limits) {
    limits.parallelism >= 1 && s.fifo == [] && s.running == [] && Inv(s, limits.parallelism) && UsersOk(s.db)
  }

  /** The shortest history the tables can have. */
  ghost function BootHistory(db: Db): map<nat, seq<Status>> {
    map r | r in db.rooms && db.rooms[r].lastOutcome.Some? :: [db.rooms[r].lastOutcome.value]
  }

  ghost function BootAccepted(db: Db): map<nat, nat> {
    map r | r in db.rooms && db.rooms[r].lastOutcome.Some? :: 1
  }

  ghost function Booted(db: Db): Server {
    Server(db, [], [], {}, {}, BootHistory(db), BootAccepted(db))
  }

  /** What the schema keeps: links point at rooms, each at its own, ids are below the next one, configs have users. */
  ghost predicate TablesOk(db: Db) {
    LinksOk(Server(db, [], [], {}, {}, map[], map[])) && UsersOk(db)
  }

  /** Any tables the schema allows, once swept, are the start of a run. */
  lemma SweptTablesAreInitial(db: Db, rows: seq<LinkedRow>, limits: Limits)
    requires limits.parallelism >= 1 && TablesOk(db) && ListsLinkedRooms(DeleteOrphans(db), rows)
    ensures Initial(Booted(Sweep(db, rows)), limits)
  {
    hide RoomDb.Sweep;
    SweepEffect(db, rows);
    var d := Sweep(db, rows);
    var s := Server(db, [], [], {}, {}, BootHistory(d), BootAccepted(d));
    assert LinksOk(s);
    forall h | LinkedRoom(db, h).Some?
      ensures var r := LinkedRoom(db, h).value;
              SweptRoom(db.rooms[r]).lastOutcome == LastOf(HistoryOf(s, r)) && AcceptedOf(s, r) == |HistoryOf(s, r)|
    {
      assert LinkedRoom(db, h).value in LinkedRoomIds(db);
    }
    SweptIsConsistent(s, rows, limits.parallelism);
    assert s.(db := d) == Booted(d);
  }

  ghost predicate Step(s: Server, e: Event, t: Server, limits: Limits)
    requires limits.parallelism >= 1
  {
    match e
    case LinkEvent(hash, user) => t == LinkUser(s, hash, user)
    case EnqueueEvent(avg, hash, user, source) => t == Enqueue(s, limits, avg, hash, user, source).0
    case CancelEvent(hash, user) => t == PostHashCancel(s, hash, user).0
    case ExitEvent(i, exit) => i < |s.running| && exit.Possible() && t == WorkerExit(s, limits.parallelism, i, exit)
    case RemoveEvent(hash, user) => t == RemoveUser(s, hash, user).0
    case RestartEvent(landed, rows) =>
      ListsLinkedRooms(DeleteOrphans(Crash(s, landed).db), rows) && t == Restart(s, landed, rows)
  }

  ghost predicate Run(states: seq<Server>, events: seq<Event>, limits: Limits) {
    && |states| == |events| + 1 && Initial(states[0], limits)
    && forall i :: 0 <= i < |events| ==> Step(states[i], events[i], states[i + 1], limits)
  }

  ghost predicate Good(s: Server, limits: Limits)
    requires limits.parallelism >= 1
  {
    Inv(s, limits.parallelism) && Settled(s, limits.parallelism) && UsersOk(s.db)
  }

  lemma StepKeeps(s: Server, e: Event, t: Server, limits: Limits)
    requires limits.parallelism >= 1 && Good(s, limits) && Step(s, e, t, limits)
    ensures Good(t, limits)
  {
    match e
    case LinkEvent(hash, user) => LinkUserKeeps(s, hash, user, limits.parallelism);
    case EnqueueEvent(avg, hash, user, source) => EnqueueKeeps(s, limits, avg, hash, user, source);
    case CancelEvent(hash, user) => PostHashCancelKeeps(s, hash, user, limits.parallelism);
    case ExitEvent(i, exit) => WorkerExitKeeps(s, limits.parallelism, i, exit);
    case RemoveEvent(hash, user) => RemoveUserKeeps(s, hash, user, limits.parallelism);
    case RestartEvent(landed, rows) => RestartKeeps(s, landed, rows, limits.parallelism);
  }

  /** Every state of every run is good. */
  lemma {:induction false} RunKeeps(states: seq<Server>, events: seq<Event>, limits: Limits, i: nat)
    requires Run(states, events, limits) && i < |states|
    ensures Good(states[i], limits)
    decreases i
  {
    if i == 0 {
    } else {
      RunKeeps(states, events, limits, i - 1);
      StepKeeps(states[i - 1], events[i - 1], states[i], limits);
    }
  }

  ghost function Count(jobs: seq<Job>, h: string): nat {
    |JobsOf(jobs, h)|
  }

  lemma CountIsMembership(jobs: seq<Job>, h: string)
    requires DistinctHashes(jobs)
    ensures Count(jobs, h) == if h in Hashes(jobs) then 1 else 0
  {
    TakenJobs(jobs, h);
  }

  /** A hash's room and its jobs tell the same story. */
  ghost predicate Agrees(s: Server, h: string) {
    && Count(s.fifo, h) + Count(s.running, h) <= 1
    && (forall job | (job in s.fifo || job in s.running) && job.hash == h :: LinkedRoom(s.db, h) == Some(job.roomId))
    && (LinkedRoom(s.db, h).Some? ==>
          && (RoomStatus(s.db, h) == Some(Queued) <==> Count(s.fifo, h) == 1)
          && (RoomStatus(s.db, h) == Some(Running) <==> Count(s.running, h) == 1)
          && (RoomStatus(s.db, h) in {None, Some(Idle), Some(Queued), Some(Running)}))
    && (LinkedRoom(s.db, h).None? ==> Count(s.fifo, h) + Count(s.running, h) == 0)
  }

  lemma GoodAgrees(s: Server, limits: Limits, h: string)
    requires limits.parallelism >= 1 && Good(s, limits)
    ensures Agrees(s, h)
  {
    CountIsMembership(s.fifo, h);
    CountIsMembership(s.running, h);
    assert HashOk(s, h);
    assert forall job | job in s.fifo || job in s.running :: Placed(s.db, job);
  }

  /**
   * In every reachable state a hash has at most one job, waiting or working; its room is
   * `queued` exactly when the job waits and `running` exactly when it works, otherwise it rests;
   * and every job carries the id of the room its hash is linked to.
   */
  lemma RoomAndQueueAgree(states: seq<Server>, events: seq<Event>, limits: Limits, i: nat, h: string)
    requires Run(states, events, limits) && i < |states|
    ensures Agrees(states[i], h)
  {
    RunKeeps(states, events, limits, i);
    GoodAgrees(states[i], limits, h);
  }

  /** Slots are never overbooked, and jobs wait only when all slots are taken. */
  lemma SlotsRespected(states: seq<Server>, events: seq<Event>, limits: Limits, i: nat)
    requires Run(states, events, limits) && i < |states|
    ensures |states[i].running| <= limits.parallelism
    ensures states[i].fifo != [] ==> |states[i].running| == limits.parallelism
  {
    RunKeeps(states, events, limits, i);
  }

  /**
   * A waiting job stands no further back than its recorded position, and its recorded wait is
   * no less than the estimate for where it stands.
   */
  lemma RecordedPositionsBound(states: seq<Server>, events: seq<Event>, limits: Limits, i: nat, k: nat)
    requires Run(states, events, limits) && i < |states| && k < |states[i].fifo|
    ensures var job := states[i].fifo[k];
            && k + 1 <= job.queuePosition
            && (job.avgMs.Some? <==> job.estimatedWaitMs.Some?)
            && (job.avgMs.Some? ==>
                  EstimateWaitMs(k + 1, job.avgMs.value, limits.parallelism) <= job.estimatedWaitMs.value)
  {
    RunKeeps(states, events, limits, i);
  }

  /** Every waiting or working job's hash has a config with a user, and configs never share a room. */
  lemma ReferencesHold(states: seq<Server>, events: seq<Event>, limits: Limits, i: nat)
    requires Run(states, events, limits) && i < |states|
    ensures var s := states[i];
            && (forall h | h in s.db.configs :: s.db.configs[h].users != {})
            && (forall job | job in s.fifo || job in s.running :: job.hash in s.db.configs)
            && (forall g, h | g != h && LinkedRoom(s.db, g).Some? :: LinkedRoom(s.db, g) != LinkedRoom(s.db, h))
  {
    RunKeeps(states, events, limits, i);
    var s := states[i];
    assert forall job | job in s.fifo || job in s.running :: Placed(s.db, job);
  }

  /**
   * `last_outcome` is the outcome of the last finished run, and every accepted run has finished
   * exactly once unless it is the live one.
   */
  lemma OutcomeHistory(states: seq<Server>, events: seq<Event>, limits: Limits, i: nat, h: string)
    requires Run(states, events, limits) && i < |states| && LinkedRoom(states[i].db, h).Some?
    ensures var s, r := states[i], LinkedRoom(states[i].db, h).value;
            && s.db.rooms[r].lastOutcome == LastOf(HistoryOf(s, r))
            && AcceptedOf(s, r) == |HistoryOf(s, r)| + Count(s.fifo, h) + Count(s.running, h)
  {
    RunKeeps(states, events, limits, i);
    var s := states[i];
    CountIsMembership(s.fifo, h);
    CountIsMembership(s.running, h);
    assert HashOk(s, h);
    if h in Hashes(s.fifo) {
      assert h !in Hashes(s.running);
    }
  }

  /** Enqueueing never touches a recorded outcome. */
  lemma EnqueueKeepsOutcomes(s: Server, limits: Limits, avg: Option<int>, h: string, user: string, source: Source)
    requires limits.parallelism >= 1 && Good(s, limits)
    ensures var t := Enqueue(s, limits, avg, h, user, source).0;
            t.history == s.history
            && forall r | r in s.db.rooms :: r in t.db.rooms && t.db.rooms[r].lastOutcome == s.db.rooms[r].lastOutcome
  {
    var (db, outcome) := TryQueueRoom(s.db, h, user);
    if outcome.RoomQueued? {
      QueuedPushKeeps(s, limits, avg, h, user, source);
      DrainKeepsOutcomes(PushJob(s, limits, avg, h, user, source, db, outcome.roomId), limits.parallelism);
    }
  }

  lemma {:induction false} DrainKeepsOutcomes(s: Server, parallelism: nat)
    ensures var t := Drain(s, parallelism);
            t.history == s.history && t.db.rooms.Keys == s.db.rooms.Keys
            && forall r | r in s.db.rooms :: t.db.rooms[r].lastOutcome == s.db.rooms[r].lastOutcome
    decreases |s.fifo|
  {
    if |s.running| < parallelism && s.fifo != [] {
      DrainKeepsOutcomes(StartNext(s), parallelism);
    }
  }

  /**
   * A run cancelled while working: the request reaches its worker, and the run then ends
   * `cancelled` unless the worker reported ok.
   */
  lemma CancelReachesItsRun(s: Server, limits: Limits, h: string, user: string, i: nat, exit: Exit)
    requires limits.parallelism >= 1 && Good(s, limits)
    requires PostHashCancel(s, h, user).1 == CancelledRunning
    requires i < |s.running| && s.running[i].hash == h && exit.Possible()
    ensures var t := WorkerExit(PostHashCancel(s, h, user).0, limits.parallelism, i, exit);
            var r := s.running[i].roomId;
            && HistoryOf(t, r) == HistoryOf(s, r)
                 + [match exit.report case ReportOk => Completed case OkThenError(_) => Failed case _ => Cancelled]
            && h !in t.pendingCancel
  {
    var c := PostHashCancel(s, h, user).0;
    PostHashCancelKeeps(s, h, user, limits.parallelism);
    var job := s.running[i];
    assert job in c.running && Placed(c.db, job) && HashOk(c, h);
    assert h in Hashes(c.running);
    ExitedShape(c, i, exit);
    ExitDrains(c, limits.parallelism, i, exit);
    DrainAddsNoCancel(Exited(c, i, exit), limits.parallelism);
    DrainKeepsOutcomes(Exited(c, i, exit), limits.parallelism);
  }

  lemma {:induction false} DrainAddsNoCancel(s: Server, parallelism: nat)
    ensures Drain(s, parallelism).pendingCancel == s.pendingCancel
    decreases |s.fifo|
  {
    if |s.running| < parallelism && s.fifo != [] {
      DrainAddsNoCancel(StartNext(s), parallelism);
    }
  }

  /** No waiting job's hash has a cancel pending, so a request never reaches a later run. */
  lemma PendingCancelIsForTheLiveRun(states: seq<Server>, events: seq<Event>, limits: Limits, i: nat)
    requires Run(states, events, limits) && i < |states|
    ensures forall h | h in states[i].pendingCancel :: Count(states[i].running, h) == 1 && Count(states[i].fifo, h) == 0
  {
    RunKeeps(states, events, limits, i);
    var s := states[i];
    forall h | h in s.pendingCancel
      ensures Count(s.running, h) == 1 && Count(s.fifo, h) == 0
    {
      CountIsMembership(s.running, h);
      CountIsMembership(s.fifo, h);
    }
  }

  /** Work left: a run in a slot or in the FIFO. */
  ghost function Work(s: Server): nat {
    |s.fifo| + |s.running|
  }

  lemma {:induction false} DrainKeepsWork(s: Server, parallelism: nat)
    ensures Work(Drain(s, parallelism)) == Work(s)
    decreases |s.fifo|
  {
    if |s.running| < parallelism && s.fifo != [] {
      DrainKeepsWork(StartNext(s), parallelism);
    }
  }

  lemma ExitTakesOne(s: Server, limits: Limits, k: nat, exit: Exit)
    requires limits.parallelism >= 1 && Good(s, limits) && k < |s.running| && exit.Possible()
    ensures Work(WorkerExit(s, limits.parallelism, k, exit)) == Work(s) - 1
  {
    var job := s.running[k];
    assert job in s.running && Placed(s.db, job) && HashOk(s, job.hash);
    assert job.hash in Hashes(s.running);
    ExitedShape(s, k, exit);
    ExitDrains(s, limits.parallelism, k, exit);
    DrainKeepsWork(Exited(s, k, exit), limits.parallelism);
  }

  /** A step but an enqueue never adds work, and the end of a worker takes one run off it. */
  lemma WorkNeverGrows(s: Server, e: Event, t: Server, limits: Limits)
    requires limits.parallelism >= 1 && Good(s, limits) && Step(s, e, t, limits) && !e.EnqueueEvent?
    ensures Work(t) <= Work(s) - Exits([e])
  {
    hide Inv, Settled, WorkerExit, RoomDb.UpsertConfig;
    assert [e][..0] == [];
    match e
    case LinkEvent(hash, user) =>
    case CancelEvent(hash, user) => KeptNoLonger(s.fifo, hash); CancelKeepsLists(s, hash, user);
    case ExitEvent(i, exit) => ExitTakesOne(s, limits, i, exit);
    case RemoveEvent(hash, user) => KeptNoLonger(s.fifo, hash); RemoveKeepsLists(s, hash);
    case RestartEvent(landed, rows) =>
  }

  lemma CancelKeepsLists(s: Server, h: string, user: string)
    ensures var t := PostHashCancel(s, h, user).0;
            t.running == s.running && (t.fifo == s.fifo || t.fifo == Purge(s, h).fifo)
  {
    RecordKeepsLists(Purge(s, h).(db := CloseJobs(s.db, JobsOf(s.fifo, h), USER_CANCELLED)), JobsOf(s.fifo, h), Cancelled);
  }

  lemma RemoveKeepsLists(s: Server, h: string)
    ensures var t := RemoveConfigForLastUser(s, h).0;
            t.running == s.running && (t.fifo == s.fifo || t.fifo == Purge(s, h).fifo)
  {
    RecordKeepsLists(Purge(s, h).(db := CloseJobs(s.db, JobsOf(s.fifo, h), CONFIG_DELETED)), JobsOf(s.fifo, h), Cancelled);
  }

  /** How many workers end in the steps. */
  ghost function Exits(events: seq<Event>): nat {
    if events == [] then 0 else Exits(events[..|events| - 1]) + if events[|events| - 1].ExitEvent? then 1 else 0
  }

  /**
   * Nothing gets stuck: while work is left some worker is running, its end takes one run off
   * the work, and with no work left every room rests.
   */
  lemma WorkDrains(states: seq<Server>, events: seq<Event>, limits: Limits, i: nat)
    requires Run(states, events, limits) && i < |states|
    ensures var s := states[i];
            && (Work(s) > 0 ==> s.running != [])
            && (forall k: nat, exit: Exit | 0 <= k < |s.running| && exit.Possible() ::
                  Work(WorkerExit(s, limits.parallelism, k, exit)) == Work(s) - 1)
            && (Work(s) == 0 ==> AllRest(s))
  {
    RunKeeps(states, events, limits, i);
    var s := states[i];
    forall k: nat, exit: Exit | 0 <= k < |s.running| && exit.Possible()
      ensures Work(WorkerExit(s, limits.parallelism, k, exit)) == Work(s) - 1
    {
      ExitTakesOne(s, limits, k, exit);
    }
    forall h | Work(s) == 0 && LinkedRoom(s.db, h).Some?
      ensures RoomStatus(s.db, h) in {None, Some(Idle)}
    {
      assert HashOk(s, h);
    }
  }

  ghost predicate AllRest(s: Server) {
    forall h | LinkedRoom(s.db, h).Some? :: RoomStatus(s.db, h) in {None, Some(Idle)}
  }

  lemma SlotsThere(states: seq<Server>, events: seq<Event>, limits: Limits)
    requires Run(states, events, limits)
    ensures limits.parallelism >= 1
  {
  }

  lemma ExitsSnoc(events: seq<Event>, i: nat, j: nat)
    requires i < j <= |events|
    ensures Exits(events[i..j]) == Exits(events[i..j - 1]) + Exits([events[j - 1]])
  {
    assert events[i..j][..j - 1 - i] == events[i..j - 1];
    assert [events[j - 1]][..0] == [];
  }

  lemma {:induction false} WorkBound(states: seq<Server>, events: seq<Event>, limits: Limits, i: nat, j: nat)
    requires Run(states, events, limits) && i <= j <= |events|
    requires forall k :: i <= k < j ==> !events[k].EnqueueEvent?
    ensures Work(states[j]) + Exits(events[i..j]) <= Work(states[i])
    decreases j
  {
    hide Step, Work, Good, Initial;
    if i == j {
      assert events[i..j] == [];
    } else {
      WorkBound(states, events, limits, i, j - 1);
      RunKeeps(states, events, limits, j - 1);
      SlotsThere(states, events, limits);
      WorkNeverGrows(states[j - 1], events[j - 1], states[j], limits);
      ExitsSnoc(events, i, j);
    }
  }

  /**
   * Without new enqueues, after as many worker ends as there is work every room rests, whatever
   * links, cancels, removals and restarts come in between.
   */
  lemma WorkRunsOut(states: seq<Server>, events: seq<Event>, limits: Limits, i: nat, j: nat)
    requires Run(states, events, limits) && i <= j <= |events|
    requires forall k :: i <= k < j ==> !events[k].EnqueueEvent?
    ensures Exits(events[i..j]) <= Work(states[i])
    ensures Exits(events[i..j]) == Work(states[i]) ==> Work(states[j]) == 0 && AllRest(states[j])
  {
    hide Step, Work, AllRest;
    WorkBound(states, events, limits, i, j);
    WorkDrains(states, events, limits, j);
  }

  /** The commits a step lands, by room. */
  ghost predicate CommitsRoom(s: Server, e: Event, r: nat) {
    match e
    case ExitEvent(i, exit) => i < |s.running| && s.running[i].roomId == r && exit.committed
    case RestartEvent(landed, _) => exists job :: job in s.running && job.roomId == r && job.hash in landed
    case _ => false
  }

  lemma ExitHistory(s: Server, limits: Limits, i: nat, exit: Exit, r: nat)
    requires limits.parallelism >= 1 && Good(s, limits) && i < |s.running| && exit.Possible()
    ensures var job := s.running[i];
            HistoryOf(WorkerExit(s, limits.parallelism, i, exit), r) == HistoryOf(s, r)
              + if r == job.roomId then [Verdict(exit, job.hash in s.pendingCancel)] else []
  {
    hide Verdict, Drain;
    var job := s.running[i];
    assert job in s.running && Placed(s.db, job) && HashOk(s, job.hash);
    assert job.hash in Hashes(s.running);
    ExitedShape(s, i, exit);
    ExitDrains(s, limits.parallelism, i, exit);
    DrainKeepsOutcomes(Exited(s, i, exit), limits.parallelism);
  }

  /** A run is recorded `completed` only in a step in which its catalog replace committed. */
  lemma CompletedOnlyIfCommitted(s: Server, e: Event, t: Server, limits: Limits, r: nat)
    requires limits.parallelism >= 1 && Good(s, limits) && Step(s, e, t, limits)
    requires HistoryOf(t, r) == HistoryOf(s, r) + [Completed]
    ensures CommitsRoom(s, e, r)
  {
    hide Good, Enqueue, PostHashCancel, RemoveUser, WorkerExit, Restart;
    assert (HistoryOf(s, r) + [Completed])[|HistoryOf(s, r)|] == Completed;
    assert (HistoryOf(s, r) + [Cancelled])[|HistoryOf(s, r)|] == Cancelled;
    match e
    case LinkEvent(hash, user) =>
    case EnqueueEvent(avg, hash, user, source) => EnqueueKeepsOutcomes(s, limits, avg, hash, user, source);
    case CancelEvent(hash, user) => CancelRecordsCancelled(s, hash, user, limits, r);
    case ExitEvent(i, exit) => ExitHistory(s, limits, i, exit, r);
    case RemoveEvent(hash, user) => RemoveRecordsCancelled(s, hash, user, limits, r);
    case RestartEvent(landed, rows) => RestartCompletes(s, landed, rows, limits, r);
  }

  lemma RestartCompletes(s: Server, landed: set<string>, rows: seq<LinkedRow>, limits: Limits, r: nat)
    requires limits.parallelism >= 1 && Good(s, limits)
    requires HistoryOf(Restart(s, landed, rows), r) == HistoryOf(s, r) + [Completed]
    ensures exists job :: job in s.running && job.roomId == r && job.hash in landed
  {
    CrashEffect(s, landed, limits.parallelism);
    assert HistoryOf(Crash(s, landed), r) == HistoryOf(s, r) + if r in Gained(s, landed) then [Gained(s, landed)[r]] else [];
    assert (HistoryOf(s, r) + [Completed])[|HistoryOf(s, r)|] == Completed;
    assert r in LandedIds(s.running, landed);
  }

  /**
   * The same down to the worker's statements: however the worker of a run went, was killed and was
   * heard, the run ends in a step of the protocol, and it is recorded `completed` exactly when an
   * ok line was heard and handled, which means that its transaction had landed.
   */
  lemma CompletedMeansReplaced(s: Server, limits: Limits, i: nat, exit: Exit, workers: seq<WorkerProcess.Worker>,
                               steps: seq<WorkerProcess.Event>, received: nat, hint: string, handling: Option<string>)
    requires limits.parallelism >= 1 && Good(s, limits) && i < |s.running|
    requires WorkerProcess.Ends(workers, steps, received, hint, handling, exit)
    ensures var r := s.running[i].roomId;
            var t := WorkerExit(s, limits.parallelism, i, exit);
            && Step(s, ExitEvent(i, exit), t, limits)
            && (HistoryOf(t, r) == HistoryOf(s, r) + [Completed] <==> exit.report.ReportOk?)
            && (exit.report.ReportOk? ==> workers[|steps|].committed)
  {
    hide Good, WorkerExit, Drain;
    WorkerProcess.EndsArePossible(workers, steps, received, hint, handling, exit);
    var r := s.running[i].roomId;
    ExitHistory(s, limits, i, exit, r);
    assert (HistoryOf(s, r) + [Completed])[|HistoryOf(s, r)|] == Completed;
    var verdict := Verdict(exit, s.running[i].hash in s.pendingCancel);
    assert (HistoryOf(s, r) + [verdict])[|HistoryOf(s, r)|] == verdict;
  }

  lemma CancelRecordsCancelled(s: Server, h: string, user: string, limits: Limits, r: nat)
    requires limits.parallelism >= 1 && Good(s, limits)
    ensures HistoryOf(PostHashCancel(s, h, user).0, r) == HistoryOf(s, r)
         || HistoryOf(PostHashCancel(s, h, user).0, r) == HistoryOf(s, r) + [Cancelled]
  {
    PostHashCancelKeeps(s, h, user, limits.parallelism);
    if PostHashCancel(s, h, user).1 == CancelledQueued {
      CancelQueuedRecords(s, h, limits.parallelism, r);
    }
  }

  lemma CancelQueuedRecords(s: Server, h: string, parallelism: nat, r: nat)
    requires parallelism >= 1 && Inv(s, parallelism) && h in Hashes(s.fifo)
    ensures CancelQueued(s, h).1
    ensures HistoryOf(CancelQueued(s, h).0, r) == HistoryOf(s, r)
         || HistoryOf(CancelQueued(s, h).0, r) == HistoryOf(s, r) + [Cancelled]
  {
    TakenJob(s, h, parallelism);
    var job :| JobsOf(s.fifo, h) == [job] && job.hash == h && Some(job.roomId) == s.db.configs[h].roomId;
    var s1 := Purge(s, h);
    CloseOne(s.db, job, USER_CANCELLED);
    RecordOne(s1.(db := CloseRoom(s.db, job.roomId, Cancelled, USER_CANCELLED)), job, Cancelled);
  }

  lemma RemoveRecordsCancelled(s: Server, h: string, user: string, limits: Limits, r: nat)
    requires limits.parallelism >= 1 && Good(s, limits)
    ensures HistoryOf(RemoveUser(s, h, user).0, r) == HistoryOf(s, r)
         || HistoryOf(RemoveUser(s, h, user).0, r) == HistoryOf(s, r) + [Cancelled]
  {
    TakenJobs(s.fifo, h);
    if h in Hashes(s.fifo) {
      TakenJob(s, h, limits.parallelism);
      var job :| JobsOf(s.fifo, h) == [job] && job.hash == h && Some(job.roomId) == s.db.configs[h].roomId;
      CloseOne(s.db, job, CONFIG_DELETED);
      RecordOne(Purge(s, h).(db := CloseRoom(s.db, job.roomId, Cancelled, CONFIG_DELETED)), job, Cancelled);
    }
  }
}
