/**
 * What the operations of the queue do to a state that rooms and jobs agree in, said in lists, maps
 * and literal values: which job goes where, and what its room says afterwards.
 */
module QueueEffects {
  import opened Arithmetic
  import opened Wrappers
  import opened RoomDb
  import opened QueueSpec
  import opened RoomInvariant
  import opened RoomSteps
  import opened RoomSweep
  import opened RoomRestart

  // Starting jobs

  /** How many waiting jobs there is a slot for. */
  function Due(s: Server, parallelism: nat): (n: nat)
    ensures n <= |s.fifo|
  {
    if |s.running| >= parallelism then 0
    else if |s.fifo| <= parallelism - |s.running| then |s.fifo| else parallelism - |s.running|
  }

  ghost predicate IsRoomOf(jobs: seq<Job>, n: nat, r: nat)
    requires n <= |jobs|
  {
    exists k :: 0 <= k < n && jobs[k].roomId == r
  }

  /** The first `n` waiting jobs go to work in their order, their rooms are `running`, nothing else differs. */
  ghost predicate FirstStarted(s: Server, t: Server, n: nat) {
    && n <= |s.fifo|
    && t.fifo == s.fifo[n..] && t.running == s.running + s.fifo[..n]
    && t.children == s.children + Hashes(s.fifo[..n])
    && t.db == s.db.(rooms := t.db.rooms) && t.db.rooms.Keys == s.db.rooms.Keys
    && (forall r | r in s.db.rooms ::
          t.db.rooms[r] == if IsRoomOf(s.fifo, n, r) then s.db.rooms[r].(status := Some(Running)) else s.db.rooms[r])
    && t.pendingCancel == s.pendingCancel && t.history == s.history && t.accepted == s.accepted
  }

  lemma StartedBefore(s: Server, t: Server, n: nat)
    requires s.fifo != [] && FirstStarted(StartNext(s), t, n)
    ensures FirstStarted(s, t, n + 1)
  {
    hide Hashes;
    var u := StartNext(s);
    assert s.fifo == [s.fifo[0]] + u.fifo;
    assert s.fifo[..n + 1] == [s.fifo[0]] + u.fifo[..n];
    assert Hashes(s.fifo[..n + 1]) == {s.fifo[0].hash} + Hashes(u.fifo[..n]) by {
      FirstHash(s.fifo[0], u.fifo[..n]);
    }
    forall r | r in s.db.rooms
      ensures IsRoomOf(s.fifo, n + 1, r) <==> s.fifo[0].roomId == r || IsRoomOf(u.fifo, n, r)
    {
      assert forall k :: 0 <= k < n ==> u.fifo[k] == s.fifo[k + 1];
      assert forall k :: 1 <= k < n + 1 ==> s.fifo[k] == u.fifo[k - 1];
    }
  }

  lemma FirstHash(job: Job, jobs: seq<Job>)
    ensures Hashes([job] + jobs) == {job.hash} + Hashes(jobs)
  {
    assert forall x :: x in [job] + jobs <==> x == job || x in jobs;
    assert job in [job] + jobs;
  }

  /** The drain takes jobs from the front, as many as there are slots for. */
  lemma {:induction false} DrainStartsFirst(s: Server, parallelism: nat)
    ensures FirstStarted(s, Drain(s, parallelism), Due(s, parallelism))
    decreases |s.fifo|
  {
    if |s.running| < parallelism && s.fifo != [] {
      hide FirstStarted;
      DrainStartsFirst(StartNext(s), parallelism);
      StartedBefore(s, Drain(s, parallelism), Due(s, parallelism) - 1);
    } else {
      assert s.fifo[0..] == s.fifo && s.fifo[..0] == [];
    }
  }

  // Enqueue

  /** `c` is `a / b`, rounded up. */
  ghost predicate IsCeil(a: nat, b: nat, c: nat) {
    (c - 1) * b < a <= c * b
  }

  lemma OneCeil(a: nat, b: nat, c: nat, d: nat)
    requires b >= 1 && IsCeil(a, b, c) && IsCeil(a, b, d)
    ensures c == d
  {
    MulLess(c - 1, d, b);
    MulLess(d - 1, c, b);
  }

  /** So many jobs take longer than the cap, by the average run or the fallback when there is none. */
  ghost predicate BacklogAbove(jobs: nat, limits: Limits, avg: Option<int>) {
    exists c: nat :: IsCeil(jobs, limits.parallelism, c)
      && c * (if avg.Some? && avg.value > 0 then avg.value else limits.fallbackMs) > limits.maxBacklogMs
  }

  /** One more job would wait longer than the cap. */
  ghost predicate TooLong(s: Server, limits: Limits, avg: Option<int>) {
    BacklogAbove(|s.fifo| + 1, limits, avg)
  }

  lemma TooLongIffOverfull(s: Server, limits: Limits, avg: Option<int>)
    requires limits.parallelism >= 1
    ensures TooLong(s, limits, avg) <==> Overfull(s, limits, avg)
  {
    var jobs := |s.fifo| + 1;
    var c := CeilDiv(jobs, limits.parallelism);
    assert IsCeil(jobs, limits.parallelism, c);
    forall d: nat | IsCeil(jobs, limits.parallelism, d)
      ensures d == c
    {
      OneCeil(jobs, limits.parallelism, c, d);
    }
  }

  ghost predicate IsRoundsOf(jobs: nat, parallelism: nat, each: int, total: nat) {
    exists c: nat :: IsCeil(jobs, parallelism, c) && total == c * each
  }

  /** The estimate given for a position: full rounds of the jobs ahead, each of the average length. */
  ghost predicate WaitGiven(position: nat, avg: Option<int>, parallelism: nat, wait: Option<nat>)
    requires position >= 1
  {
    && (wait.Some? <==> avg.Some? && avg.value > 0)
    && (wait.Some? ==> IsRoundsOf(position - 1, parallelism, avg.value, wait.value))
  }

  /** The room a config had, or the next new one. */
  ghost function RoomFor(db: Db, h: string): nat {
    if h in db.configs && db.configs[h].roomId.Some? && db.configs[h].roomId.value in db.rooms
    then db.configs[h].roomId.value else db.nextRoomId
  }

  /** The job goes to a slot when one is free and behind the others when not; its room says so. */
  ghost predicate JobAdded(s: Server, t: Server, h: string, user: string, job: Job, parallelism: nat) {
    var r := RoomFor(s.db, h);
    var starts := |s.running| < parallelism;
    && (starts ==> s.fifo == t.fifo == [] && t.running == s.running + [job])
    && (!starts ==> t.fifo == s.fifo + [job] && t.running == s.running)
    && t.children == s.children + (if starts then {h} else {}) && t.pendingCancel == s.pendingCancel
    && h in s.db.configs && t.db.configs == s.db.configs[h := s.db.configs[h].(roomId := Some(r))]
    && t.db.rooms == s.db.rooms[r := Room(Some(if starts then Running else Queued), user, None,
                                          if r in s.db.rooms then s.db.rooms[r].lastOutcome else None)]
    && (forall g :: LogLines(t.db, g) == if g == h then [] else LogLines(s.db, g))
    && t.history == s.history
  }

  ghost predicate Enqueued(s: Server, t: Server, limits: Limits, avg: Option<int>, h: string, user: string, source: Source,
                           result: EnqueueResult)
  {
    var busy := exists job :: (job in s.fifo || job in s.running) && job.hash == h;
    && (result.BacklogExceeded? <==> TooLong(s, limits, avg))
    && (result.ConfigNotFound? <==> !TooLong(s, limits, avg) && h !in s.db.configs)
    && (result.AlreadyActive? <==> !TooLong(s, limits, avg) && h in s.db.configs && busy)
    && (!result.Accepted? ==> t == s)
    && (result.Accepted? ==>
          && result.queuePosition == |s.fifo| + 1 && result.roomId == RoomFor(s.db, h)
          && WaitGiven(|s.fifo| + 1, avg, limits.parallelism, result.estimatedWaitMs)
          && JobAdded(s, t, h, user,
                      Job(h, result.roomId, user, source, |s.fifo| + 1, result.estimatedWaitMs,
                          if avg.Some? && avg.value > 0 then Some(avg.value) else None),
                      limits.parallelism))
  }

  lemma QueuedTables(db: Db, h: string, user: string)
    requires TryQueueRoom(db, h, user).1.RoomQueued? && db.nextRoomId !in db.rooms
    ensures var (d, outcome) := TryQueueRoom(db, h, user);
            var r := RoomFor(db, h);
            && outcome == RoomQueued(r) && h in db.configs
            && d.configs == db.configs[h := db.configs[h].(roomId := Some(r))]
            && d.rooms == db.rooms[r := Room(Some(Queued), user, None, if r in db.rooms then db.rooms[r].lastOutcome else None)]
            && d.logs == db.logs
  {
    var (d, outcome) := TryQueueRoom(db, h, user);
    var r := RoomFor(db, h);
    if LinkedRoom(db, h).None? {
      assert r == db.nextRoomId && d.rooms[r] == Room(Some(Queued), user, None, None);
    } else {
      assert db.configs[h := db.configs[h].(roomId := Some(RoomFor(db, h)))] == db.configs;
    }
  }

  lemma PushedIs(s: Server, limits: Limits, avg: Option<int>, h: string, user: string, source: Source)
    requires limits.parallelism >= 1 && TryQueueRoom(s.db, h, user).1.RoomQueued?
    ensures var (d, outcome) := TryQueueRoom(s.db, h, user);
            var t := PushJob(s, limits, avg, h, user, source, d, outcome.roomId);
            var job := t.fifo[|s.fifo|];
            && t.fifo == s.fifo + [job] && t.running == s.running && t.children == s.children
            && t.pendingCancel == s.pendingCancel && t.history == s.history
            && job == Job(h, outcome.roomId, user, source, |s.fifo| + 1, job.estimatedWaitMs,
                          if avg.Some? && avg.value > 0 then Some(avg.value) else None)
            && WaitGiven(|s.fifo| + 1, avg, limits.parallelism, job.estimatedWaitMs)
            && t.db == d.(logs := t.db.logs) && forall g :: LogLines(t.db, g) == if g == h then [] else LogLines(d, g)
  {
    hide RoomDb.TryQueueRoom;
    if avg.Some? && avg.value > 0 {
      assert IsCeil(|s.fifo|, limits.parallelism, CeilDiv(|s.fifo|, limits.parallelism));
    }
  }

  /** The queue with the job pushed and its room queued, before the drain. */
  ghost predicate Pushed(s: Server, pushed: Server, h: string, user: string, job: Job) {
    && pushed.fifo == s.fifo + [job] && pushed.running == s.running && pushed.children == s.children
    && pushed.pendingCancel == s.pendingCancel && pushed.history == s.history
    && job.hash == h && h in s.db.configs && job.roomId == RoomFor(s.db, h)
    && pushed.db.configs == s.db.configs[h := s.db.configs[h].(roomId := Some(job.roomId))]
    && pushed.db.rooms == s.db.rooms[job.roomId := Room(Some(Queued), user, None,
         if job.roomId in s.db.rooms then s.db.rooms[job.roomId].lastOutcome else None)]
    && forall g :: LogLines(pushed.db, g) == if g == h then [] else LogLines(s.db, g)
  }

  lemma NoneStarted(s: Server, t: Server)
    requires FirstStarted(s, t, 0)
    ensures t.fifo == s.fifo && t.running == s.running && t.children == s.children && t.db == s.db
  {
    assert s.fifo[0..] == s.fifo && s.fifo[..0] == [] && Hashes([]) == {};
    assert t.db.rooms == s.db.rooms;
  }

  lemma OnlyJobStarted(s: Server, t: Server, job: Job)
    requires s.fifo == [job] && FirstStarted(s, t, 1) && job.roomId in s.db.rooms
    ensures t.fifo == [] && t.running == s.running + [job] && t.children == s.children + {job.hash}
    ensures t.db == s.db.(rooms := s.db.rooms[job.roomId := s.db.rooms[job.roomId].(status := Some(Running))])
  {
    assert s.fifo[..1] == [job] && s.fifo[0] == job && Hashes([job]) == {job.hash};
    assert forall r :: IsRoomOf(s.fifo, 1, r) <==> r == job.roomId;
    assert t.db.rooms == s.db.rooms[job.roomId := s.db.rooms[job.roomId].(status := Some(Running))];
  }

  lemma SameLogs(a: Db, b: Db)
    requires a.logs == b.logs
    ensures forall g :: LogLines(a, g) == LogLines(b, g)
  {
  }

  /** Pushed onto a settled queue, the job starts when a slot is free and waits otherwise. */
  lemma AddedAfterDrain(s: Server, pushed: Server, parallelism: nat, h: string, user: string, job: Job)
    requires parallelism >= 1 && (s.fifo != [] ==> |s.running| >= parallelism) && |s.running| <= parallelism
    requires Pushed(s, pushed, h, user, job)
    ensures JobAdded(s, Drain(pushed, parallelism), h, user, job, parallelism)
  {
    hide Drain, RoomFor, LogLines, FirstStarted;
    var t := Drain(pushed, parallelism);
    DrainStartsFirst(pushed, parallelism);
    if |s.running| < parallelism {
      assert pushed.fifo == [job];
      OnlyJobStarted(pushed, t, job);
    } else {
      NoneStarted(pushed, t);
    }
    SameLogs(t.db, pushed.db);
    StartedKeeps(pushed, t, Due(pushed, parallelism));
  }

  lemma StartedKeeps(s: Server, t: Server, n: nat)
    requires FirstStarted(s, t, n)
    ensures t.pendingCancel == s.pendingCancel && t.history == s.history
  {
  }

  lemma NextRoomIsNew(s: Server, parallelism: nat)
    requires parallelism >= 1 && Inv(s, parallelism)
    ensures s.db.nextRoomId !in s.db.rooms && |s.running| <= parallelism
  {
  }

  /** Every enqueue on a settled queue: which reply when, and what it does. */
  lemma EnqueueDoes(s: Server, limits: Limits, avg: Option<int>, h: string, user: string, source: Source)
    requires limits.parallelism >= 1 && Inv(s, limits.parallelism) && Settled(s, limits.parallelism) && UsersOk(s.db)
    ensures var (t, result) := Enqueue(s, limits, avg, h, user, source); Enqueued(s, t, limits, avg, h, user, source, result)
  {
    hide Drain, PushJob, RoomDb.TryQueueRoom, Overfull, TooLong, RoomFor, JobAdded, WaitGiven, UsersOk, Inv;
    EnqueueKeeps(s, limits, avg, h, user, source);
    TooLongIffOverfull(s, limits, avg);
    ActiveIffBusy(s, h, limits.parallelism);
    var (d, outcome) := TryQueueRoom(s.db, h, user);
    if outcome.RoomQueued? {
      var pushed := PushJob(s, limits, avg, h, user, source, d, outcome.roomId);
      NextRoomIsNew(s, limits.parallelism);
      QueuedTables(s.db, h, user);
      PushedIs(s, limits, avg, h, user, source);
      AddedAfterDrain(s, pushed, limits.parallelism, h, user, pushed.fifo[|s.fifo|]);
    }
  }

  // A worker ends

  /** How a run ends and why, by what its worker reported and whether its cancel was pending. */
  ghost predicate EndsAs(report: Report, cancelPending: bool, outcome: Status, reason: Option<string>) {
    match report
    case ReportOk => outcome == Completed && reason == None
    case OkThenError(message) => outcome == Failed && IsReason(message, reason)
    case ReportFailed(message) =>
      if cancelPending then outcome == Cancelled && reason == Some("user_cancelled")
      else outcome == Failed && IsReason(message, reason)
    case SpawnError(message) =>
      if cancelPending then outcome == Cancelled && reason == Some("user_cancelled")
      else outcome == Failed && IsReason(message, reason)
  }

  /** The message, cut after 240 characters, with a stand-in for an empty one. */
  ghost predicate IsReason(message: string, reason: Option<string>) {
    && (message == "" ==> reason == Some("prefetch_sync_failed"))
    && (0 < |message| <= 240 ==> reason == Some(message))
    && (|message| > 240 ==> reason == Some(message[..240]))
  }

  /** The state with run `i` over and its room closed, before the slot is given to another job. */
  ghost function RunOverAs(s: Server, i: nat, outcome: Status, reason: Option<string>): Server
    requires i < |s.running| && s.running[i].roomId in s.db.rooms
  {
    var job := s.running[i];
    var room := s.db.rooms[job.roomId].(status := Some(Idle), lastOutcome := Some(outcome), closedReason := reason);
    Server(s.db.(rooms := s.db.rooms[job.roomId := room]), s.fifo, s.running[..i] + s.running[i + 1..],
           s.children - {job.hash}, s.pendingCancel - {job.hash},
           s.history[job.roomId := HistoryOf(s, job.roomId) + [outcome]], s.accepted)
  }

  ghost predicate Ended(s: Server, t: Server, parallelism: nat, i: nat, exit: Exit)
    requires i < |s.running|
  {
    && s.running[i].roomId in s.db.rooms
    && exists outcome, reason ::
         && EndsAs(exit.report, s.running[i].hash in s.pendingCancel, outcome, reason)
         && FirstStarted(RunOverAs(s, i, outcome, reason), t, Due(RunOverAs(s, i, outcome, reason), parallelism))
  }

  ghost function ReasonOf(exit: Exit, cancelPending: bool): Option<string> {
    match exit.report
    case ReportOk => None
    case OkThenError(message) => Some(ClosedReason(message))
    case ReportFailed(message) => Some(if cancelPending then USER_CANCELLED else ClosedReason(message))
    case SpawnError(message) => Some(if cancelPending then USER_CANCELLED else ClosedReason(message))
  }

  lemma EndingIs(exit: Exit, cancelPending: bool)
    ensures EndsAs(exit.report, cancelPending, Verdict(exit, cancelPending), ReasonOf(exit, cancelPending))
  {
  }

  lemma ExitedRoom(s: Server, i: nat, exit: Exit)
    requires i < |s.running| && exit.Possible() && Placed(s.db, s.running[i]) && s.running[i].roomId in s.db.rooms
    requires s.db.rooms[s.running[i].roomId].status == Some(Running)
    ensures var job := s.running[i];
            var pending := job.hash in s.pendingCancel;
            Exited(s, i, exit) == RunOverAs(s, i, Verdict(exit, pending), ReasonOf(exit, pending))
  {
    hide EndsAs, HandleReport, WorkerCommit, RoomDb.MaybeResetTerminal, HistoryOf, ClosedReason;
    var job := s.running[i];
    var s1 := WorkerCommit(s, job, exit.committed);
    var s2 := s1.(children := s1.children - {job.hash});
    var s3 := HandleReport(s2, job, exit.report);
    Committed(s, job, exit.committed);
    ReportHandled(s2, job, exit.report);
    TerminalReset(s3.db, job);
    ExitedShape(s, i, exit);
    assert Exited(s, i, exit).db.rooms == RunOverAs(s, i, Verdict(exit, job.hash in s.pendingCancel),
                                                    ReasonOf(exit, job.hash in s.pendingCancel)).db.rooms;
  }

  /** Every end of a worker: its run is over with the reported outcome, and the first waiting job gets the slot. */
  lemma ExitDoes(s: Server, parallelism: nat, i: nat, exit: Exit)
    requires parallelism >= 1 && Inv(s, parallelism) && i < |s.running| && exit.Possible()
    ensures Ended(s, WorkerExit(s, parallelism, i, exit), parallelism, i, exit)
  {
    hide Exited, WorkerExit, Drain, Verdict, FirstStarted, RunOverAs, EndsAs, ReasonOf;
    var job := s.running[i];
    assert job in s.running && Placed(s.db, job) && HashOk(s, job.hash);
    assert job.hash in Hashes(s.running);
    ExitedRoom(s, i, exit);
    EndingIs(exit, job.hash in s.pendingCancel);
    ExitDrains(s, parallelism, i, exit);
    DrainStartsFirst(Exited(s, i, exit), parallelism);
  }

  // Cancelling

  /** A job of the hash waits at place `i`. */
  ghost predicate WaitsAt(s: Server, h: string, i: nat) {
    i < |s.fifo| && s.fifo[i].hash == h
  }

  ghost predicate Waits(s: Server, h: string) {
    exists i: nat :: WaitsAt(s, h, i)
  }

  ghost predicate Works(s: Server, h: string) {
    exists i :: 0 <= i < |s.running| && s.running[i].hash == h
  }

  /** The others close up, in their order, numbered from 1. */
  ghost function Without(fifo: seq<Job>, i: nat): seq<Job>
    requires i < |fifo|
  {
    seq(|fifo| - 1, k requires 0 <= k < |fifo| - 1 => fifo[if k < i then k else k + 1].(queuePosition := k + 1))
  }

  ghost function Numbered(fifo: seq<Job>): seq<Job> {
    seq(|fifo|, k requires 0 <= k < |fifo| => fifo[k].(queuePosition := k + 1))
  }

  lemma WaitsIff(s: Server, h: string)
    ensures Waits(s, h) <==> h in Hashes(s.fifo)
    ensures Works(s, h) <==> h in Hashes(s.running)
  {
    if h in Hashes(s.fifo) {
      var i :| 0 <= i < |s.fifo| && s.fifo[i].hash == h;
      assert WaitsAt(s, h, i);
    }
    if Waits(s, h) {
      var i: nat :| WaitsAt(s, h, i);
      assert s.fifo[i] in s.fifo;
    }
    if h in Hashes(s.running) {
      var i :| 0 <= i < |s.running| && s.running[i].hash == h;
    }
    if Works(s, h) {
      var i :| 0 <= i < |s.running| && s.running[i].hash == h;
      assert s.running[i] in s.running;
    }
  }

  lemma {:induction false} TakenAt(jobs: seq<Job>, h: string, i: nat)
    requires DistinctHashes(jobs) && i < |jobs| && jobs[i].hash == h
    ensures JobsOf(jobs, h) == [jobs[i]] && JobsExcept(jobs, h) == jobs[..i] + jobs[i + 1..]
  {
    var n := |jobs| - 1;
    var front := jobs[..n];
    if i < n {
      TakenAt(front, h, i);
      assert jobs[n].hash != jobs[i].hash;
      assert front[..i] + front[i + 1..] + [jobs[n]] == jobs[..i] + jobs[i + 1..];
    } else {
      assert forall k :: 0 <= k < n ==> front[k] == jobs[k] && jobs[k].hash != jobs[n].hash;
      TakenNowhere(front, h);
      assert front == jobs[..i] + jobs[i + 1..];
    }
  }

  lemma {:induction false} TakenNowhere(jobs: seq<Job>, h: string)
    requires forall k :: 0 <= k < |jobs| ==> jobs[k].hash != h
    ensures JobsOf(jobs, h) == [] && JobsExcept(jobs, h) == jobs
  {
    if jobs == [] {
    } else {
      TakenNowhere(jobs[..|jobs| - 1], h);
    }
  }

  lemma PurgedIs(jobs: seq<Job>, h: string, i: nat)
    requires DistinctHashes(jobs) && i < |jobs| && jobs[i].hash == h
    ensures Renumber(JobsExcept(jobs, h)) == Without(jobs, i)
  {
    TakenAt(jobs, h, i);
  }

  /** The waiting job at `i` is gone, its run over, its room at rest. */
  ghost predicate WaitingCancelled(s: Server, t: Server, h: string, i: nat) {
    && i < |s.fifo|
    && var r := s.fifo[i].roomId;
    && r in s.db.rooms
    && t == s.(fifo := Without(s.fifo, i), history := s.history[r := HistoryOf(s, r) + [Cancelled]],
               db := s.db.(rooms := s.db.rooms[r := s.db.rooms[r].(
                       status := Some(Idle), closedReason := Some("user_cancelled"), lastOutcome := Some(Cancelled))]))
  }

  /** The cancel request: which reply when, and what each does. */
  ghost predicate CancelHandled(s: Server, t: Server, h: string, user: string, reply: CancelReply) {
    var linked := h in s.db.configs && user in s.db.configs[h].users;
    var own := (Waits(s, h) || Works(s, h)) && h in s.db.configs && s.db.configs[h].roomId.Some?
               && s.db.configs[h].roomId.value in s.db.rooms
               && s.db.rooms[s.db.configs[h].roomId.value].triggeredBy == user;
    && (reply == CancelNotLinked <==> !linked)
    && (reply == NothingToCancel <==> linked && !Waits(s, h) && !Works(s, h))
    && (reply == NotTheTrigger <==> linked && (Waits(s, h) || Works(s, h)) && !own)
    && (reply == CancelledQueued <==> linked && Waits(s, h) && own)
    && (reply == CancelledRunning <==> linked && !Waits(s, h) && Works(s, h) && own)
    && (reply == CancelledQueued ==> forall i | WaitsAt(s, h, i) :: WaitingCancelled(s, t, h, i))
    && (reply == CancelledRunning ==> t == s.(pendingCancel := s.pendingCancel + {h}))
    && (reply != CancelledQueued && reply != CancelledRunning ==> t == s)
  }

  lemma QueuedCancelled(s: Server, h: string, i: nat, parallelism: nat)
    requires parallelism >= 1 && Inv(s, parallelism) && WaitsAt(s, h, i)
    ensures CancelQueued(s, h).1 && WaitingCancelled(s, CancelQueued(s, h).0, h, i)
  {
    hide JobsOf, JobsExcept, RecordAll, CloseJobs, Renumber, Without, Inv;
    FromInv(s, h, i, parallelism);
    var job := s.fifo[i];
    TakenAt(s.fifo, h, i);
    PurgedIs(s.fifo, h, i);
    CloseOne(s.db, job, USER_CANCELLED);
    RecordOne(Purge(s, h).(db := CloseRoom(s.db, job.roomId, Cancelled, USER_CANCELLED)), job, Cancelled);
  }

  lemma FromInv(s: Server, h: string, i: nat, parallelism: nat)
    requires parallelism >= 1 && Inv(s, parallelism) && WaitsAt(s, h, i)
    ensures DistinctHashes(s.fifo) && Placed(s.db, s.fifo[i]) && s.fifo[i].roomId in s.db.rooms
    ensures LinkedRoom(s.db, h) == Some(s.fifo[i].roomId)
  {
    assert s.fifo[i] in s.fifo;
  }

  /** On tables in step with the queue every cancel request is handled as stated. */
  lemma CancelDoes(s: Server, h: string, user: string, parallelism: nat)
    requires parallelism >= 1 && Inv(s, parallelism)
    ensures var (t, reply) := PostHashCancel(s, h, user); CancelHandled(s, t, h, user, reply)
  {
    hide CancelQueued, WaitingCancelled, Waits, Works, WaitsAt, Hashes;
    var (t, reply) := PostHashCancel(s, h, user);
    WaitsIff(s, h);
    StatusIff(s, h, parallelism);
    forall i | WaitsAt(s, h, i)
      ensures CancelQueued(s, h).1 && WaitingCancelled(s, CancelQueued(s, h).0, h, i)
    {
      QueuedCancelled(s, h, i, parallelism);
    }
    if Waits(s, h) {
      SomeWaits(s, h);
    }
  }

  lemma SomeWaits(s: Server, h: string)
    requires Waits(s, h)
    ensures exists i: nat :: WaitsAt(s, h, i)
  {
  }

  /** What the room's status and the tracked children say about a hash. */
  lemma StatusIff(s: Server, h: string, parallelism: nat)
    requires parallelism >= 1 && Inv(s, parallelism)
    ensures h in Hashes(s.fifo) || h in Hashes(s.running) ==> LinkedRoom(s.db, h).Some?
    ensures LinkedRoom(s.db, h).Some? ==>
              && (RoomStatus(s.db, h) == Some(Queued) <==> h in Hashes(s.fifo))
              && (RoomStatus(s.db, h) == Some(Running) <==> h in Hashes(s.running))
              && RoomStatus(s.db, h) in {None, Some(Idle), Some(Queued), Some(Running)}
    ensures h in s.children <==> h in Hashes(s.running)
  {
    assert HashOk(s, h);
    if h in Hashes(s.fifo) || h in Hashes(s.running) {
      var job :| (job in s.fifo || job in s.running) && job.hash == h;
      assert Placed(s.db, job);
    }
  }

  // Users and configs

  /** The hash is gone with its room, its log and its waiting job; everybody else's stays. */
  ghost predicate HashGone(s: Server, t: Server, h: string) {
    var own := if h in s.db.configs && s.db.configs[h].roomId.Some? then {s.db.configs[h].roomId.value} else {};
    && t.db.configs == s.db.configs - {h} && t.db.rooms == s.db.rooms - own && t.db.nextRoomId == s.db.nextRoomId
    && (forall g :: LogLines(t.db, g) == if g == h then [] else LogLines(s.db, g))
    && (forall i: nat | WaitsAt(s, h, i) :: t.fifo == Without(s.fifo, i))
    && (!Waits(s, h) ==> t.fifo == Numbered(s.fifo))
    && t.running == s.running && t.children == s.children && t.pendingCancel == s.pendingCancel
    && (forall r | r in t.db.rooms :: HistoryOf(t, r) == HistoryOf(s, r) && AcceptedOf(t, r) == AcceptedOf(s, r))
  }

  /** A user leaves: which reply when, and what each does. */
  ghost predicate UserRemoved(s: Server, t: Server, h: string, user: string, reply: RemoveReply) {
    var linked := h in s.db.configs && user in s.db.configs[h].users;
    var others := if h in s.db.configs then s.db.configs[h].users - {user} else {};
    && (reply == RemoveNotLinked <==> !linked)
    && (reply == Unlinked <==> linked && others != {})
    && (reply == SyncStillActive <==> linked && others == {} && Works(s, h))
    && (reply == Removed <==> linked && others == {} && !Works(s, h))
    && (reply == Unlinked ==>
          t == s.(db := s.db.(configs := s.db.configs[h := s.db.configs[h].(users := others)])))
    && (reply == Removed ==> HashGone(s, t, h))
    && (reply == RemoveNotLinked || reply == SyncStillActive ==> t == s)
  }

  lemma RemovedFifo(s: Server, h: string)
    requires DistinctHashes(s.fifo)
    ensures forall i: nat | WaitsAt(s, h, i) :: Purge(s, h).fifo == Without(s.fifo, i)
    ensures !Waits(s, h) ==> Purge(s, h).fifo == Numbered(s.fifo)
  {
    forall i: nat | WaitsAt(s, h, i)
      ensures Purge(s, h).fifo == Without(s.fifo, i)
    {
      PurgedIs(s.fifo, h, i);
    }
    if !Waits(s, h) {
      forall k: nat | k < |s.fifo|
        ensures s.fifo[k].hash != h
      {
        assert !WaitsAt(s, h, k);
      }
      TakenNowhere(s.fifo, h);
    }
  }

  lemma RemovedFields(s: Server, h: string)
    ensures var (t, reply) := RemoveConfigForLastUser(s, h);
            reply != SyncStillActive ==> reply == Removed && t.fifo == Purge(s, h).fifo && t.accepted == s.accepted
  {
    RecordKeepsLists(Purge(s, h).(db := CloseJobs(s.db, JobsOf(s.fifo, h), CONFIG_DELETED)), JobsOf(s.fifo, h), Cancelled);
  }

  lemma RemovedRooms(s: Server, t: Server, h: string)
    requires HashRemoved(s, t, h)
    ensures t.db.rooms == s.db.rooms - (if s.db.configs[h].roomId.Some? then {s.db.configs[h].roomId.value} else {})
  {
  }

  lemma RemoveKnownDoes(s: Server, h: string, parallelism: nat)
    requires parallelism >= 1 && Inv(s, parallelism) && h in s.db.configs
    ensures var (t, reply) := RemoveConfigForLastUser(s, h);
            && (reply == SyncStillActive <==> Works(s, h)) && (reply == SyncStillActive ==> t == s)
            && (reply != SyncStillActive ==> reply == Removed && HashGone(s, t, h))
  {
    hide RemoveConfigForLastUser, Purge, Waits, Works, WaitsAt, Without, Numbered, Hashes;
    var (t, reply) := RemoveConfigForLastUser(s, h);
    RemoveLastUserKeeps(s, h, parallelism);
    WaitsIff(s, h);
    RemovedFifo(s, h);
    RemovedFields(s, h);
    if reply != SyncStillActive {
      RemovedRooms(s, t, h);
    }
  }

  /** Without a config the removal finds nothing to take. */
  lemma RemoveUnknownDoes(s: Server, h: string, parallelism: nat)
    requires parallelism >= 1 && Inv(s, parallelism) && h !in s.db.configs
    ensures var (t, reply) := RemoveConfigForLastUser(s, h); reply == Removed && !Works(s, h) && HashGone(s, t, h)
  {
    hide Waits, Works, WaitsAt, Without, Numbered, Hashes, JobsExcept, Inv;
    var t := RemoveConfigForLastUser(s, h).0;
    UnknownHasNoJob(s, h, parallelism);
    RemovedFifo(s, h);
    RemovedFields(s, h);
    assert t.db == s.db.(configs := s.db.configs - {h}, logs := s.db.logs - {h});
    assert s.db.rooms - {} == s.db.rooms;
  }

  lemma UnknownHasNoJob(s: Server, h: string, parallelism: nat)
    requires parallelism >= 1 && Inv(s, parallelism) && h !in s.db.configs
    ensures !Works(s, h) && !Waits(s, h) && DistinctHashes(s.fifo) && JobsOf(s.fifo, h) == []
  {
    ActiveIffBusy(s, h, parallelism);
    WaitsIff(s, h);
    TakenJobs(s.fifo, h);
  }

  /** Every departure of a user is handled as stated. */
  lemma RemoveDoes(s: Server, h: string, user: string, parallelism: nat)
    requires parallelism >= 1 && Inv(s, parallelism)
    ensures var (t, reply) := RemoveUser(s, h, user); UserRemoved(s, t, h, user, reply)
  {
    hide RemoveConfigForLastUser, HashGone, Works, Inv;
    if h in s.db.configs {
      RemoveKnownDoes(s, h, parallelism);
    }
  }

  /** The user is linked; a missing config is created, and a missing room with it, idle. */
  ghost predicate UserLinked(s: Server, t: Server, h: string, user: string) {
    var r := RoomFor(s.db, h);
    && t == s.(db := s.db.(configs := t.db.configs, rooms := t.db.rooms, nextRoomId := t.db.nextRoomId))
    && t.db.configs == s.db.configs[h := Config(Some(r), (if h in s.db.configs then s.db.configs[h].users else {}) + {user})]
    && (r in s.db.rooms ==> t.db.rooms == s.db.rooms && t.db.nextRoomId == s.db.nextRoomId)
    && (r !in s.db.rooms ==> t.db.rooms == s.db.rooms[r := Room(Some(Idle), user, None, None)] && t.db.nextRoomId == r + 1)
  }

  lemma LinkDoes(s: Server, h: string, user: string)
    requires s.db.nextRoomId !in s.db.rooms
    ensures UserLinked(s, LinkUser(s, h, user), h, user)
  {
    var db1 := if h in s.db.configs then s.db else s.db.(configs := s.db.configs[h := Config(None, {})]);
    assert LinkedRoom(db1, h) == LinkedRoom(s.db, h);
  }

  // The next process

  /** One linked room before and after the startup sweep. */
  ghost predicate RoomSweptTo(before: Room, after: Room) {
    && (before.status in {Some(Queued), Some(Running), Some(Fetching)} ==>
          after == before.(status := Some(Idle), closedReason := Some("process_restarted"), lastOutcome := Some(Failed)))
    && (before.status in {Some(Cancelled), Some(Completed), Some(Failed), Some(Errored)} ==>
          after == before.(status := Some(Idle), closedReason := if before.closedReason == Some("") then None else before.closedReason))
    && (before.status in {None, Some(Idle)} ==> after == before)
  }

  /** Unlinked rooms are gone, linked ones swept, and a log line tells of every run cut short. */
  ghost predicate TablesSweptTo(db: Db, d: Db) {
    && d.configs == db.configs && d.nextRoomId == db.nextRoomId
    && (forall r :: r in d.rooms <==> r in db.rooms && exists h :: h in db.configs && db.configs[h].roomId == Some(r))
    && (forall r | r in d.rooms :: RoomSweptTo(db.rooms[r], d.rooms[r]))
    && forall h ::
         var cut := h in db.configs && db.configs[h].roomId.Some? && db.configs[h].roomId.value in db.rooms
                    && db.rooms[db.configs[h].roomId.value].status in {Some(Queued), Some(Running), Some(Fetching)};
         LogLines(d, h) == LogLines(db, h) + if cut then ["Server restarted during sync"] else []
  }

  lemma SweptTo(room: Room)
    ensures RoomSweptTo(room, SweptRoom(room))
  {
  }

  /** The rows whose room is active. */
  ghost function ActiveRows(rows: seq<LinkedRow>): set<int> {
    set k | 0 <= k < |rows| && rows[k].status in {Some(Queued), Some(Running), Some(Fetching)}
  }

  lemma {:induction false} ActiveCountIs(rows: seq<LinkedRow>)
    ensures ActiveCount(rows) == |ActiveRows(rows)|
  {
    if rows == [] {
      assert ActiveRows(rows) == {};
    } else {
      var n := |rows| - 1;
      ActiveCountIs(rows[..n]);
      if rows[n].status in {Some(Queued), Some(Running), Some(Fetching)} {
        assert ActiveRows(rows) == ActiveRows(rows[..n]) + {n};
      } else {
        assert ActiveRows(rows) == ActiveRows(rows[..n]);
      }
    }
  }

  /** From any tables whose links point at rooms. */
  lemma SweepDoes(db: Db, rows: seq<LinkedRow>)
    requires ForeignKeyOk(db) && ListsLinkedRooms(DeleteOrphans(db), rows)
    ensures TablesSweptTo(db, Sweep(db, rows))
  {
    hide RoomDb.Sweep, RoomSweptTo, ListsLinkedRooms;
    var d := Sweep(db, rows);
    SweepEffect(db, rows);
    forall r | r in d.rooms
      ensures RoomSweptTo(db.rooms[r], d.rooms[r])
    {
      SweptTo(db.rooms[r]);
    }
  }

  /** How a hash's room comes out of a crash and the sweep after it. */
  ghost predicate RoomRestarted(before: Room, after: Room, waiting: bool, working: bool, landed: bool) {
    if working && landed then
      after == before.(status := Some(Idle), closedReason := None, lastOutcome := Some(Completed))
    else if working || waiting then
      after == before.(status := Some(Idle), closedReason := Some("process_restarted"), lastOutcome := Some(Failed))
    else after == before
  }

  /** Nothing of the old process is left but the tables, and each room tells how its run ended. */
  lemma RestartDoes(s: Server, landed: set<string>, rows: seq<LinkedRow>, parallelism: nat, h: string)
    requires parallelism >= 1 && Inv(s, parallelism) && UsersOk(s.db)
    requires ListsLinkedRooms(DeleteOrphans(Crash(s, landed).db), rows)
    ensures var t := Restart(s, landed, rows);
            && t.fifo == [] && t.running == [] && t.children == {} && t.pendingCancel == {} && t.db.configs == s.db.configs
            && (h in s.db.configs && s.db.configs[h].roomId.Some? ==>
                  && s.db.configs[h].roomId.value in s.db.rooms && s.db.configs[h].roomId.value in t.db.rooms
                  && RoomRestarted(s.db.rooms[s.db.configs[h].roomId.value], t.db.rooms[s.db.configs[h].roomId.value],
                                   Waits(s, h), Works(s, h), h in landed))
  {
    hide LandCommits, RecordAll, RoomDb.Sweep, Waits, Works, ListsLinkedRooms;
    CrashEffect(s, landed, parallelism);
    var c, t := Crash(s, landed), Restart(s, landed, rows);
    assert ForeignKeyOk(c.db);
    SweepEffect(c.db, rows);
    WaitsIff(s, h);
    if h in s.db.configs && s.db.configs[h].roomId.Some? {
      var r := s.db.configs[h].roomId.value;
      OwnRooms(s, h, landed, parallelism);
      StatusIff(s, h, parallelism);
      assert r in LinkedRoomIds(c.db) && LinkedRoom(s.db, h) == Some(r);
      RestartedRoom(s, t.db, landed, r);
    }
  }

  // Guards, on any tables

  /** The status of the room a config is linked to. */
  ghost predicate LinkedIn(db: Db, h: string, statuses: set<Status>) {
    && h in db.configs && db.configs[h].roomId.Some? && db.configs[h].roomId.value in db.rooms
    && db.rooms[db.configs[h].roomId.value].status.Some? && db.rooms[db.configs[h].roomId.value].status.value in statuses
  }

  /** A cancel of a `queued` room that no waiting job stands behind closes the room, for good until the next sweep. */
  lemma StrayRoomIsClosed(s: Server, h: string, user: string, r: nat)
    requires h in s.db.configs && user in s.db.configs[h].users && s.db.configs[h].roomId == Some(r) && r in s.db.rooms
    requires s.db.rooms[r].status == Some(Queued) && s.db.rooms[r].triggeredBy == user
    requires forall k :: 0 <= k < |s.fifo| ==> s.fifo[k].hash != h
    ensures var (t, reply) := PostHashCancel(s, h, user);
            && reply == CancelledQueued && t.running == s.running && t.children == s.children && t.history == s.history
            && (forall k :: 0 <= k < |s.fifo| ==> |t.fifo| == |s.fifo| && t.fifo[k] == s.fifo[k].(queuePosition := k + 1))
            && t.db == s.db.(rooms := s.db.rooms[r := s.db.rooms[r].(
                 status := Some(Cancelled), closedReason := Some("user_cancelled"), lastOutcome := Some(Cancelled))])
  {
    TakenNowhere(s.fifo, h);
  }

  /** A cancel of a run that no worker is tracked for closes the room itself and brings it to rest. */
  lemma UntrackedRunIsClosed(s: Server, h: string, user: string, r: nat)
    requires h in s.db.configs && user in s.db.configs[h].users && s.db.configs[h].roomId == Some(r) && r in s.db.rooms
    requires s.db.rooms[r].status in {Some(Running), Some(Fetching)} && s.db.rooms[r].triggeredBy == user && h !in s.children
    ensures PostHashCancel(s, h, user).1 == CancelledRunning
    ensures PostHashCancel(s, h, user).0 == s.(db := s.db.(rooms := s.db.rooms[r := s.db.rooms[r].(
              status := Some(Idle), closedReason := Some("user_cancelled"), lastOutcome := Some(Cancelled))]))
  {
  }

  /** After an ok report a room that is still active is closed as completed, any other is left. */
  lemma ReconcileCloses(db: Db, h: string, r: nat)
    requires h in db.configs && db.configs[h].roomId == Some(r)
    ensures ReconcileSuccess(db, h, r) ==
              if LinkedIn(db, h, {Queued, Running, Fetching})
              then db.(rooms := db.rooms[r := db.rooms[r].(
                     status := Some(Idle), closedReason := None, lastOutcome := Some(Completed))])
              else db
  {
  }

  /** Queueing refuses a missing config and an active room, removal a room at work, a cancel a room at rest. */
  lemma GuardsHold(s: Server, h: string, user: string)
    ensures TryQueueRoom(s.db, h, user).1.ConfigMissing? <==> h !in s.db.configs
    ensures TryQueueRoom(s.db, h, user).1.ActiveSync? <==> LinkedIn(s.db, h, {Queued, Running, Fetching})
    ensures !TryQueueRoom(s.db, h, user).1.RoomQueued? ==> TryQueueRoom(s.db, h, user).0 == s.db
    ensures RemoveConfigForLastUser(s, h).1 == SyncStillActive <==> LinkedIn(s.db, h, {Running, Fetching})
    ensures h in s.db.configs && user in s.db.configs[h].users ==>
              (PostHashCancel(s, h, user).1 == NothingToCancel <==> !LinkedIn(s.db, h, {Queued, Running, Fetching}))
  {
  }
}
