/** Every operation keeps the invariant of rooms and jobs. */
module RoomSteps {
  import opened Wrappers
  import opened RoomDb
  import opened QueueSpec
  import opened RoomInvariant

  // Linking users

  lemma InsertRoomKeeps(s: Server, h: string, user: string, parallelism: nat)
    requires parallelism >= 1 && Inv(s, parallelism)
    requires h in s.db.configs && LinkedRoom(s.db, h).None?
    ensures Inv(s.(db := InsertLinkedRoom(s.db, h, user)), parallelism)
  {
    var t := s.(db := InsertLinkedRoom(s.db, h, user));
    assert s.db.configs[h].roomId.None?;
    assert LinksOk(t);
    assert ListsOk(t, parallelism);
    forall g
      ensures HashOk(t, g)
    {
      assert HashOk(s, g);
      if g == h {
        assert forall job | job in s.fifo || job in s.running :: job.hash != h;
      }
    }
  }

  lemma NewConfigKeeps(s: Server, h: string, parallelism: nat)
    requires parallelism >= 1 && Inv(s, parallelism) && h !in s.db.configs
    ensures Inv(s.(db := s.db.(configs := s.db.configs[h := Config(None, {})])), parallelism)
  {
    var t := s.(db := s.db.(configs := s.db.configs[h := Config(None, {})]));
    forall g
      ensures HashOk(t, g)
    {
      assert HashOk(s, g);
    }
  }

  lemma UsersChangeKeeps(s: Server, h: string, users: set<string>, parallelism: nat)
    requires parallelism >= 1 && Inv(s, parallelism) && h in s.db.configs
    ensures Inv(s.(db := s.db.(configs := s.db.configs[h := s.db.configs[h].(users := users)])), parallelism)
  {
    var t := s.(db := s.db.(configs := s.db.configs[h := s.db.configs[h].(users := users)]));
    forall g
      ensures HashOk(t, g)
    {
      assert HashOk(s, g);
    }
  }

  lemma LinkUserKeeps(s: Server, h: string, user: string, parallelism: nat)
    requires parallelism >= 1 && Inv(s, parallelism) && UsersOk(s.db)
    ensures Inv(LinkUser(s, h, user), parallelism) && UsersOk(LinkUser(s, h, user).db)
    ensures LinkedRoom(LinkUser(s, h, user).db, h).Some? && user in LinkUser(s, h, user).db.configs[h].users
    ensures RoomStatus(LinkUser(s, h, user).db, h) == if LinkedRoom(s.db, h).Some? then RoomStatus(s.db, h) else Some(Idle)
  {
    var s1 := if h in s.db.configs then s else s.(db := s.db.(configs := s.db.configs[h := Config(None, {})]));
    if h !in s.db.configs {
      NewConfigKeeps(s, h, parallelism);
    }
    var s2 := if LinkedRoom(s1.db, h).None? then s1.(db := InsertLinkedRoom(s1.db, h, user)) else s1;
    if LinkedRoom(s1.db, h).None? {
      InsertRoomKeeps(s1, h, user, parallelism);
    }
    UsersChangeKeeps(s2, h, s2.db.configs[h].users + {user}, parallelism);
  }

  // Enqueue

  lemma BoundsOfAppend(fifo: seq<Job>, job: Job, parallelism: nat)
    requires parallelism >= 1 && BoundsOk(fifo, parallelism)
    requires |fifo| + 1 <= job.queuePosition && (job.avgMs.Some? <==> job.estimatedWaitMs.Some?)
    requires job.avgMs.Some? ==> EstimateWaitMs(|fifo| + 1, job.avgMs.value, parallelism) <= job.estimatedWaitMs.value
    ensures BoundsOk(fifo + [job], parallelism)
  {
  }

  lemma PushedLists(s: Server, limits: Limits, avg: Option<int>, h: string, user: string, source: Source, roomId: nat)
    requires limits.parallelism >= 1 && Inv(s, limits.parallelism)
    requires LinkedRoom(s.db, h) == Some(roomId) && !IsActive(RoomStatus(s.db, h))
    ensures ListsOk(PushJob(s, limits, avg, h, user, source, RecycleToQueued(s.db, roomId, user), roomId), limits.parallelism)
    ensures h !in Hashes(s.fifo) && h !in Hashes(s.running)
  {
    var t := PushJob(s, limits, avg, h, user, source, RecycleToQueued(s.db, roomId, user), roomId);
    var job := t.fifo[|s.fifo|];
    assert HashOk(s, h);
    HashesOfAppend(s.fifo, job);
    BoundsOfAppend(s.fifo, job, limits.parallelism);
    assert forall x | x in s.fifo :: x.hash in Hashes(s.fifo);
    assert t.fifo == s.fifo + [job] && t.db.configs == s.db.configs;
  }

  /** Queueing an inactive room and pushing its job. */
  lemma PushKeeps(s: Server, limits: Limits, avg: Option<int>, h: string, user: string, source: Source, roomId: nat)
    requires limits.parallelism >= 1 && Inv(s, limits.parallelism)
    requires LinkedRoom(s.db, h) == Some(roomId) && !IsActive(RoomStatus(s.db, h))
    ensures Inv(PushJob(s, limits, avg, h, user, source, RecycleToQueued(s.db, roomId, user), roomId), limits.parallelism)
  {
    var t := PushJob(s, limits, avg, h, user, source, RecycleToQueued(s.db, roomId, user), roomId);
    var job := t.fifo[|s.fifo|];
    PushedLists(s, limits, avg, h, user, source, roomId);
    assert HashOk(s, h);
    HashesOfAppend(s.fifo, job);
    LocalChange(s, t, h, limits.parallelism);
  }

  /** Whatever room `tryQueueRoom` queued, new or reused, the pushed job keeps the invariant. */
  lemma QueuedPushKeeps(s: Server, limits: Limits, avg: Option<int>, h: string, user: string, source: Source)
    requires limits.parallelism >= 1 && Inv(s, limits.parallelism)
    requires TryQueueRoom(s.db, h, user).1.RoomQueued?
    ensures var (db, outcome) := TryQueueRoom(s.db, h, user);
            Inv(PushJob(s, limits, avg, h, user, source, db, outcome.roomId), limits.parallelism)
            && (UsersOk(s.db) ==> UsersOk(db))
  {
    var (db, outcome) := TryQueueRoom(s.db, h, user);
    if LinkedRoom(s.db, h).None? {
      InsertRoomKeeps(s, h, user, limits.parallelism);
      var s1 := s.(db := InsertLinkedRoom(s.db, h, user));
      assert db == RecycleToQueued(s1.db, outcome.roomId, user);
      PushKeeps(s1, limits, avg, h, user, source, outcome.roomId);
      assert PushJob(s1, limits, avg, h, user, source, db, outcome.roomId)
          == PushJob(s, limits, avg, h, user, source, db, outcome.roomId);
    } else {
      PushKeeps(s, limits, avg, h, user, source, outcome.roomId);
    }
  }

  /** The hashes with a job, waiting or working. */
  ghost function Busy(s: Server): set<string> {
    Hashes(s.fifo) + Hashes(s.running)
  }

  lemma {:induction false} DrainKeepsBusy(s: Server, parallelism: nat)
    requires parallelism >= 1 && Inv(s, parallelism)
    ensures Busy(Drain(s, parallelism)) == Busy(s)
    decreases |s.fifo|
  {
    if |s.running| < parallelism && s.fifo != [] {
      StartNextKeeps(s, parallelism);
      DrainKeepsBusy(StartNext(s), parallelism);
      HashesOfRest(s.fifo);
      HashesOfAppend(s.running, s.fifo[0]);
      assert Busy(StartNext(s)) == Busy(s);
    }
  }

  /** While rooms and jobs agree, a room is active exactly while its hash has a job. */
  lemma ActiveIffBusy(s: Server, h: string, parallelism: nat)
    requires parallelism >= 1 && Inv(s, parallelism)
    ensures IsActive(RoomStatus(s.db, h)) <==> h in Busy(s)
    ensures h in Busy(s) ==> h in s.db.configs
  {
    assert HashOk(s, h);
    if h in Busy(s) {
      var job :| (job in s.fifo || job in s.running) && job.hash == h;
      assert Placed(s.db, job);
    }
  }

  ghost predicate Overfull(s: Server, limits: Limits, avg: Option<int>)
    requires limits.parallelism >= 1
  {
    CeilDiv(|s.fifo| + 1, limits.parallelism) * BacklogAvg(limits, avg) > limits.maxBacklogMs
  }

  /**
   * An enqueue keeps the invariant and is accepted exactly when the backlog allows it, the config
   * is there and the hash has no job; then the hash gets its one job.
   */
  lemma EnqueueKeeps(s: Server, limits: Limits, avg: Option<int>, h: string, user: string, source: Source)
    requires limits.parallelism >= 1 && Inv(s, limits.parallelism) && Settled(s, limits.parallelism) && UsersOk(s.db)
    ensures var (t, result) := Enqueue(s, limits, avg, h, user, source);
            && Inv(t, limits.parallelism) && Settled(t, limits.parallelism) && UsersOk(t.db)
            && (result.BacklogExceeded? <==> Overfull(s, limits, avg))
            && (result.ConfigNotFound? <==> !Overfull(s, limits, avg) && h !in s.db.configs)
            && (result.AlreadyActive? <==> !Overfull(s, limits, avg) && h in Busy(s))
            && (result.Accepted? ==> h !in Busy(s) && Busy(t) == Busy(s) + {h})
            && (!result.Accepted? ==> t == s)
  {
    hide Drain, PushJob, Busy;
    var (db, outcome) := TryQueueRoom(s.db, h, user);
    ActiveIffBusy(s, h, limits.parallelism);
    if outcome.RoomQueued? {
      QueuedPushKeeps(s, limits, avg, h, user, source);
      var pushed := PushJob(s, limits, avg, h, user, source, db, outcome.roomId);
      PushedBusy(s, limits, avg, h, user, source, db, outcome.roomId);
      DrainKeeps(pushed, limits.parallelism);
      DrainKeepsBusy(pushed, limits.parallelism);
    }
  }

  lemma PushedBusy(s: Server, limits: Limits, avg: Option<int>, h: string, user: string, source: Source, db: Db, roomId: nat)
    requires limits.parallelism >= 1
    ensures var t := PushJob(s, limits, avg, h, user, source, db, roomId);
            Busy(t) == Busy(s) + {h} && t.db.configs == db.configs
  {
    var t := PushJob(s, limits, avg, h, user, source, db, roomId);
    HashesOfAppend(s.fifo, t.fifo[|s.fifo|]);
  }

  // Cancelling

  lemma BoundsOfPurge(fifo: seq<Job>, h: string, parallelism: nat)
    requires parallelism >= 1 && BoundsOk(fifo, parallelism)
    ensures BoundsOk(Renumber(JobsExcept(fifo, h)), parallelism)
  {
    KeptFrom(fifo, h);
    var kept := JobsExcept(fifo, h);
    forall i | 0 <= i < |kept|
      ensures kept[i].avgMs.Some? <==> kept[i].estimatedWaitMs.Some?
      ensures kept[i].avgMs.Some? ==>
                EstimateWaitMs(i + 1, kept[i].avgMs.value, parallelism) <= kept[i].estimatedWaitMs.value
    {
      assert FoundFrom(kept[i], fifo, i);
      var k :| i <= k < |fifo| && fifo[k] == kept[i];
      if kept[i].avgMs.Some? {
        WaitMonotone(i + 1, k + 1, kept[i].avgMs.value, parallelism);
      }
    }
  }

  lemma RenumberedPlaced(db: Db, fifo: seq<Job>, h: string)
    requires forall job | job in fifo :: Placed(db, job)
    ensures forall job | job in Renumber(JobsExcept(fifo, h)) :: Placed(db, job)
  {
    KeptFrom(fifo, h);
    var kept := JobsExcept(fifo, h);
    forall job | job in Renumber(kept)
      ensures Placed(db, job)
    {
      var i :| 0 <= i < |kept| && Renumber(kept)[i] == job;
      assert FoundFrom(kept[i], fifo, i);
      var k :| i <= k < |fifo| && fifo[k] == kept[i];
      assert Placed(db, fifo[k]);
    }
  }

  lemma PurgedLists(s: Server, h: string, parallelism: nat)
    requires parallelism >= 1 && ListsOk(s, parallelism)
    ensures ListsOk(Purge(s, h), parallelism)
    ensures Hashes(Purge(s, h).fifo) == Hashes(s.fifo) - {h}
  {
    KeptHashes(s.fifo, h);
    KeptDistinct(s.fifo, h);
    RenumberKeepsHashes(JobsExcept(s.fifo, h));
    BoundsOfPurge(s.fifo, h, parallelism);
    RenumberedPlaced(s.db, s.fifo, h);
  }

  lemma TakenJob(s: Server, h: string, parallelism: nat)
    requires parallelism >= 1 && ListsOk(s, parallelism) && h in Hashes(s.fifo)
    ensures h in s.db.configs && s.db.configs[h].roomId.Some?
    ensures exists job :: JobsOf(s.fifo, h) == [job] && job.hash == h && Some(job.roomId) == s.db.configs[h].roomId
  {
    TakenJobs(s.fifo, h);
    var job := JobsOf(s.fifo, h)[0];
    assert job in JobsOf(s.fifo, h) && JobsOf(s.fifo, h) == [job];
    assert job in s.fifo && Placed(s.db, job);
  }

  lemma {:induction false} TakenAndKept(jobs: seq<Job>, h: string)
    ensures |JobsOf(jobs, h)| + |JobsExcept(jobs, h)| == |jobs|
  {
    if jobs == [] {
    } else {
      TakenAndKept(jobs[..|jobs| - 1], h);
    }
  }

  lemma CloseOne(db: Db, job: Job, reason: string)
    ensures CloseJobs(db, [job], reason) == CloseRoom(db, job.roomId, Cancelled, reason)
  {
    assert [job][..0] == [];
    assert CloseJobs(db, [], reason) == db;
  }

  lemma RecordOne(s: Server, job: Job, outcome: Status)
    ensures RecordAll(s, [job], outcome) == Record(s, job.roomId, outcome)
  {
    assert [job][..0] == [];
    assert RecordAll(s, [], outcome) == s;
  }

  /**
   * Cancelling a waiting hash takes its only job, leaves the others in their order with new
   * positions, and returns its room to `idle`, outcome `cancelled`.
   */
  lemma CancelQueuedKeeps(s: Server, h: string, parallelism: nat)
    requires parallelism >= 1 && Inv(s, parallelism) && h in Hashes(s.fifo)
    ensures var (t, removed) := CancelQueued(s, h);
            && removed && Inv(t, parallelism) && h !in Hashes(t.fifo) && t.running == s.running
            && t.fifo == Renumber(JobsExcept(s.fifo, h)) && |t.fifo| == |s.fifo| - 1
            && t.db.configs == s.db.configs && LinkedRoom(t.db, h).Some? && RoomStatus(t.db, h) == Some(Idle)
            && t.db.rooms[LinkedRoom(t.db, h).value].lastOutcome == Some(Cancelled)
  {
    hide JobsOf, JobsExcept, RecordAll, CloseJobs;
    TakenJob(s, h, parallelism);
    TakenAndKept(s.fifo, h);
    var job :| JobsOf(s.fifo, h) == [job] && job.hash == h && Some(job.roomId) == s.db.configs[h].roomId;
    PurgedLists(s, h, parallelism);
    CloseOne(s.db, job, USER_CANCELLED);
    var s1 := Purge(s, h);
    var closed := CloseRoom(s.db, job.roomId, Cancelled, USER_CANCELLED);
    RecordOne(s1.(db := closed), job, Cancelled);
    var t := CancelQueued(s, h).0;
    assert HashOk(s, h);
    assert closed.configs == s.db.configs;
    assert t == Record(s1.(db := closed), job.roomId, Cancelled).(db := MaybeResetTerminal(closed, h));
    LocalChange(s, t, h, parallelism);
  }

  /** The cancel request: what each reply did, and that no case leaves room and jobs at odds. */
  lemma PostHashCancelKeeps(s: Server, h: string, user: string, parallelism: nat)
    requires parallelism >= 1 && Inv(s, parallelism) && Settled(s, parallelism)
    ensures var (t, reply) := PostHashCancel(s, h, user);
            && Inv(t, parallelism) && Settled(t, parallelism) && t.db.configs == s.db.configs
            && (reply == CancelledQueued <==> t.fifo != s.fifo)
            && (reply == CancelledQueued ==> h in Hashes(s.fifo) && h !in Hashes(t.fifo))
            && (reply == CancelledRunning ==> t == s.(pendingCancel := s.pendingCancel + {h}) && h in Hashes(s.running))
            && (!reply.CancelledQueued? && !reply.CancelledRunning? ==> t == s)
  {
    var (t, reply) := PostHashCancel(s, h, user);
    assert HashOk(s, h);
    if reply == CancelledQueued {
      CancelQueuedKeeps(s, h, parallelism);
      NoLongerFifo(s, h);
    } else if reply == CancelledRunning {
      forall g
        ensures HashOk(t, g)
      {
        assert HashOk(s, g);
      }
    }
  }

  lemma NoLongerFifo(s: Server, h: string)
    ensures |Purge(s, h).fifo| <= |s.fifo|
  {
    KeptNoLonger(s.fifo, h);
  }

  // A worker ends

  /** The room after a run: idle again, with the verdict as its last outcome. */
  ghost predicate RunClosed(before: Room, after: Room, verdict: Status) {
    after.status == Some(Idle) && after.lastOutcome == Some(verdict) && after.triggeredBy == before.triggeredBy
    && (verdict == Completed <==> after.closedReason == None)
    && (verdict == Cancelled ==> after.closedReason == Some(USER_CANCELLED))
  }

  /** State just before the final drain. */
  ghost function Exited(s: Server, i: nat, exit: Exit): Server
    requires i < |s.running|
  {
    var job := s.running[i];
    var s1 := WorkerCommit(s, job, exit.committed);
    var s2 := s1.(children := s1.children - {job.hash});
    var s3 := HandleReport(s2, job, exit.report);
    var s4 := s3.(running := s3.running[..i] + s3.running[i + 1..]);
    var s5 := Record(s4, job.roomId, Verdict(exit, job.hash in s.pendingCancel));
    s5.(db := MaybeResetTerminal(s5.db, job.hash))
  }

  lemma ExitDrains(s: Server, parallelism: nat, i: nat, exit: Exit)
    requires i < |s.running|
    ensures WorkerExit(s, parallelism, i, exit) == Drain(Exited(s, i, exit), parallelism)
  {
  }

  /** At most the one room differs, and its row still exists. */
  ghost predicate OnlyRoom(before: Db, after: Db, roomId: nat) {
    && after == before.(rooms := after.rooms) && after.rooms.Keys == before.rooms.Keys
    && forall r | r in before.rooms && r != roomId :: after.rooms[r] == before.rooms[r]
  }

  lemma ReportHandled(s: Server, job: Job, report: Report)
    requires Placed(s.db, job) && job.roomId in s.db.rooms
    ensures var t := HandleReport(s, job, report);
            && OnlyRoom(s.db, t.db, job.roomId)
            && t == s.(db := t.db, pendingCancel := s.pendingCancel - {job.hash})
            && var before, after := s.db.rooms[job.roomId], t.db.rooms[job.roomId];
            match report
            case ReportOk =>
              after == if IsActive(before.status)
                       then before.(status := Some(Idle), closedReason := None, lastOutcome := Some(Completed))
                       else before
            case OkThenError(m) =>
              after == before.(status := Some(Failed), closedReason := Some(ClosedReason(m)), lastOutcome := Some(Failed))
            case ReportFailed(m) =>
              if job.hash in s.pendingCancel
              then after == before.(status := Some(Cancelled), closedReason := Some(USER_CANCELLED),
                                    lastOutcome := Some(Cancelled))
              else after == before.(status := Some(Failed), closedReason := Some(ClosedReason(m)), lastOutcome := Some(Failed))
            case SpawnError(m) =>
              if job.hash in s.pendingCancel
              then after == before.(status := Some(Cancelled), closedReason := Some(USER_CANCELLED),
                                    lastOutcome := Some(Cancelled))
              else after == before.(status := Some(Failed), closedReason := Some(ClosedReason(m)), lastOutcome := Some(Failed))
  {
    assert LinkedRoom(s.db, job.hash) == Some(job.roomId);
  }

  lemma TerminalReset(db: Db, job: Job)
    requires Placed(db, job) && job.roomId in db.rooms
    ensures OnlyRoom(db, MaybeResetTerminal(db, job.hash), job.roomId)
    ensures var before, after := db.rooms[job.roomId], MaybeResetTerminal(db, job.hash).rooms[job.roomId];
            if IsTerminal(before.status)
            then after == before.(status := Some(Idle),
                                  closedReason := if before.closedReason == Some("") then None else before.closedReason)
            else after == before
  {
    assert LinkedRoom(db, job.hash) == Some(job.roomId);
  }

  lemma Committed(s: Server, job: Job, committed: bool)
    requires Placed(s.db, job) && job.roomId in s.db.rooms
    ensures var t := WorkerCommit(s, job, committed);
            && OnlyRoom(s.db, t.db, job.roomId) && t == s.(db := t.db)
            && t.db.rooms[job.roomId] ==
               if committed then s.db.rooms[job.roomId].(status := Some(Idle), closedReason := None, lastOutcome := Some(Completed))
               else s.db.rooms[job.roomId]
  {
  }

  lemma ExitedShape(s: Server, i: nat, exit: Exit)
    requires i < |s.running| && exit.Possible() && Placed(s.db, s.running[i]) && s.running[i].roomId in s.db.rooms
    requires s.db.rooms[s.running[i].roomId].status == Some(Running)
    ensures var t, job := Exited(s, i, exit), s.running[i];
            && t.fifo == s.fifo && t.running == s.running[..i] + s.running[i + 1..]
            && t.children == s.children - {job.hash} && t.pendingCancel == s.pendingCancel - {job.hash}
            && t.history == s.history[job.roomId := HistoryOf(s, job.roomId) + [Verdict(exit, job.hash in s.pendingCancel)]]
            && t.accepted == s.accepted
            && OnlyRoom(s.db, t.db, job.roomId)
            && RunClosed(s.db.rooms[job.roomId], t.db.rooms[job.roomId], Verdict(exit, job.hash in s.pendingCancel))
  {
    var job := s.running[i];
    var s1 := WorkerCommit(s, job, exit.committed);
    var s2 := s1.(children := s1.children - {job.hash});
    var s3 := HandleReport(s2, job, exit.report);
    Committed(s, job, exit.committed);
    ReportHandled(s2, job, exit.report);
    TerminalReset(s3.db, job);
  }

  lemma ExitedLists(s: Server, t: Server, parallelism: nat, i: nat)
    requires parallelism >= 1 && ListsOk(s, parallelism) && i < |s.running|
    requires t.fifo == s.fifo && t.running == s.running[..i] + s.running[i + 1..] && t.db.configs == s.db.configs
    requires t.children == s.children - {s.running[i].hash} && t.pendingCancel == s.pendingCancel - {s.running[i].hash}
    ensures ListsOk(t, parallelism)
    ensures Hashes(t.running) == Hashes(s.running) - {s.running[i].hash}
    ensures s.running[i].hash in Hashes(s.running)
  {
    HashesOfRemoval(s.running, i);
    forall job | job in t.running
      ensures Placed(t.db, job)
    {
      assert job in s.running;
    }
    assert forall job | job in t.fifo :: Placed(s.db, job);
  }

  /** A run ends: its slot frees, its room closes with the verdict, waiting jobs take the slot. */
  lemma WorkerExitKeeps(s: Server, parallelism: nat, i: nat, exit: Exit)
    requires parallelism >= 1 && Inv(s, parallelism) && i < |s.running| && exit.Possible()
    ensures var t := WorkerExit(s, parallelism, i, exit);
            var job := s.running[i];
            && Inv(t, parallelism) && Settled(t, parallelism) && t.db.configs == s.db.configs
            && job.hash in Hashes(s.running) && Busy(t) == Busy(s) - {job.hash}
            && HistoryOf(t, job.roomId) == HistoryOf(s, job.roomId) + [Verdict(exit, job.hash in s.pendingCancel)]
  {
    hide Exited, WorkerExit, Drain, Verdict;
    var t, job := Exited(s, i, exit), s.running[i];
    assert job in s.running && Placed(s.db, job) && HashOk(s, job.hash);
    assert job.hash in Hashes(s.running);
    ExitedShape(s, i, exit);
    ExitedLists(s, t, parallelism, i);
    LocalChange(s, t, job.hash, parallelism);
    ExitDrains(s, parallelism, i, exit);
    DrainKeeps(t, parallelism);
    DrainKeepsBusy(t, parallelism);
  }

  // Removing users and configs

  lemma UnlinkKeeps(s: Server, h: string, user: string, parallelism: nat)
    requires parallelism >= 1 && Inv(s, parallelism) && UsersOk(s.db)
    requires h in s.db.configs && s.db.configs[h].users - {user} != {}
    ensures Inv(s.(db := UnlinkUser(s.db, h, user)), parallelism) && UsersOk(UnlinkUser(s.db, h, user))
  {
    UsersChangeKeeps(s, h, s.db.configs[h].users - {user}, parallelism);
  }

  /** Everything about the hash is gone and nothing about any other hash differs. */
  ghost predicate HashRemoved(s: Server, t: Server, h: string) {
    && h in s.db.configs && t.db.configs == s.db.configs - {h}
    && t.db.nextRoomId == s.db.nextRoomId
    && t.db.rooms.Keys == s.db.rooms.Keys - (if s.db.configs[h].roomId.Some? then {s.db.configs[h].roomId.value} else {})
    && (forall r | r in t.db.rooms :: t.db.rooms[r] == s.db.rooms[r])
    && (forall r | r in t.db.rooms :: HistoryOf(t, r) == HistoryOf(s, r) && AcceptedOf(t, r) == AcceptedOf(s, r))
    && Hashes(t.fifo) == Hashes(s.fifo) - {h} && t.running == s.running && h !in Hashes(s.running)
    && t.children == s.children && t.pendingCancel == s.pendingCancel
    && (forall r | r in t.history || r in t.accepted :: r < t.db.nextRoomId)
    && (forall g :: LogLines(t.db, g) == if g == h then [] else LogLines(s.db, g))
  }

  lemma HashRemovedKeeps(s: Server, t: Server, h: string, parallelism: nat)
    requires parallelism >= 1 && Inv(s, parallelism) && HashRemoved(s, t, h)
    requires DistinctHashes(t.fifo) && BoundsOk(t.fifo, parallelism)
    requires forall job | job in t.fifo :: Placed(s.db, job)
    ensures Inv(t, parallelism)
  {
    forall job | job in t.fifo || job in t.running
      ensures Placed(t.db, job)
    {
      assert job in t.fifo ==> job.hash in Hashes(t.fifo);
      assert job in t.running ==> job.hash in Hashes(s.running);
    }
    assert LinksOk(t);
    forall g
      ensures HashOk(t, g)
    {
      assert HashOk(s, g);
    }
  }

  lemma DeletedConfig(s: Server, db: Db, h: string)
    requires LinksOk(s) && h in s.db.configs
    requires db.configs == s.db.configs && db.rooms.Keys == s.db.rooms.Keys && db.nextRoomId == s.db.nextRoomId
    requires db.logs == s.db.logs
    requires forall r | r in s.db.rooms && Some(r) != s.db.configs[h].roomId :: db.rooms[r] == s.db.rooms[r]
    ensures var d := DeleteConfigCascade(db, h);
            && d.configs == s.db.configs - {h} && d.nextRoomId == s.db.nextRoomId
            && d.rooms.Keys == s.db.rooms.Keys - (if s.db.configs[h].roomId.Some? then {s.db.configs[h].roomId.value} else {})
            && (forall r | r in d.rooms :: d.rooms[r] == s.db.rooms[r])
            && (forall g :: LogLines(d, g) == if g == h then [] else LogLines(s.db, g))
  {
    var d := DeleteConfigCascade(db, h);
    assert forall g | g in s.db.configs && g != h :: g in d.configs && d.configs[g] == s.db.configs[g];
    assert d.configs == s.db.configs - {h};
  }

  /** Closing a waiting job's room and cancelling the room touch that room alone. */
  lemma ClosedForDeletion(s: Server, h: string, parallelism: nat)
    requires parallelism >= 1 && Inv(s, parallelism) && h in s.db.configs
    ensures var removed := JobsOf(s.fifo, h);
            var db := CancelQueuedRoom(CloseJobs(s.db, removed, CONFIG_DELETED), h, CONFIG_DELETED);
            && db.configs == s.db.configs && db.rooms.Keys == s.db.rooms.Keys && db.nextRoomId == s.db.nextRoomId
            && db.logs == s.db.logs
            && (forall r | r in s.db.rooms && Some(r) != s.db.configs[h].roomId :: db.rooms[r] == s.db.rooms[r])
  {
    TakenJobs(s.fifo, h);
    if h in Hashes(s.fifo) {
      TakenJob(s, h, parallelism);
      var job :| JobsOf(s.fifo, h) == [job] && job.hash == h && Some(job.roomId) == s.db.configs[h].roomId;
      CloseOne(s.db, job, CONFIG_DELETED);
    }
  }

  lemma RecordedForDeletion(s: Server, t: Server, h: string, parallelism: nat)
    requires parallelism >= 1 && Inv(s, parallelism) && h in s.db.configs
    requires t.history == s.history && t.accepted == s.accepted
    ensures var u := RecordAll(t, JobsOf(s.fifo, h), Cancelled);
            && (forall r: nat | Some(r) != s.db.configs[h].roomId :: HistoryOf(u, r) == HistoryOf(s, r))
            && u == t.(history := u.history)
            && (forall r | r in u.history :: r < s.db.nextRoomId)
  {
    TakenJobs(s.fifo, h);
    if h in Hashes(s.fifo) {
      TakenJob(s, h, parallelism);
      var job :| JobsOf(s.fifo, h) == [job] && job.hash == h && Some(job.roomId) == s.db.configs[h].roomId;
      RecordOne(t, job, Cancelled);
    }
  }

  /** Removing a hash with its last user takes its waiting job, its room and its config, and nothing else. */
  lemma RemoveLastUserKeeps(s: Server, h: string, parallelism: nat)
    requires parallelism >= 1 && Inv(s, parallelism) && h in s.db.configs
    ensures var (t, reply) := RemoveConfigForLastUser(s, h);
            && Inv(t, parallelism)
            && (reply == SyncStillActive <==> h in Hashes(s.running))
            && (reply == SyncStillActive ==> t == s)
            && (reply != SyncStillActive ==> HashRemoved(s, t, h) && |t.fifo| <= |s.fifo|)
  {
    hide RecordAll, CloseJobs, JobsOf, JobsExcept, RoomDb.CancelQueuedRoom, RoomDb.DeleteConfigCascade;
    assert HashOk(s, h);
    var (t, reply) := RemoveConfigForLastUser(s, h);
    if reply != SyncStillActive {
      PurgedLists(s, h, parallelism);
      NoLongerFifo(s, h);
      ClosedForDeletion(s, h, parallelism);
      var removed := JobsOf(s.fifo, h);
      var db := CancelQueuedRoom(CloseJobs(s.db, removed, CONFIG_DELETED), h, CONFIG_DELETED);
      DeletedConfig(s, db, h);
      var s1 := Purge(s, h).(db := CloseJobs(s.db, removed, CONFIG_DELETED));
      RecordedForDeletion(s, s1, h, parallelism);
      var s2 := RecordAll(s1, removed, Cancelled);
      assert t == s2.(db := DeleteConfigCascade(CancelQueuedRoom(s2.db, h, CONFIG_DELETED), h));
      assert t.db == DeleteConfigCascade(db, h);
      assert h !in Hashes(s.running);
      assert HashRemoved(s, t, h);
      HashRemovedKeeps(s, t, h, parallelism);
    }
  }

  /** Removing a hash without a config only renumbers the FIFO and drops stray log rows. */
  lemma RemoveUnknownKeeps(s: Server, h: string, parallelism: nat)
    requires parallelism >= 1 && Inv(s, parallelism) && h !in s.db.configs
    ensures var (t, reply) := RemoveConfigForLastUser(s, h);
            && Inv(t, parallelism) && reply == Removed && t.db.configs == s.db.configs
            && t.running == s.running && |t.fifo| <= |s.fifo| && h !in Hashes(t.fifo)
  {
    hide JobsExcept;
    var t := RemoveConfigForLastUser(s, h).0;
    ActiveIffBusy(s, h, parallelism);
    TakenJobs(s.fifo, h);
    PurgedLists(s, h, parallelism);
    NoLongerFifo(s, h);
    assert JobsOf(s.fifo, h) == [];
    assert t.db == s.db.(configs := s.db.configs - {h}, logs := s.db.logs - {h}) && s.db.configs - {h} == s.db.configs;
    assert forall job | job in t.fifo :: Placed(Purge(s, h).db, job);
    forall g
      ensures HashOk(t, g)
    {
      assert HashOk(s, g);
    }
  }

  /** Removing a hash, known or not, keeps everything in step. */
  lemma RemoveConfigKeeps(s: Server, h: string, parallelism: nat)
    requires parallelism >= 1 && Inv(s, parallelism) && Settled(s, parallelism) && UsersOk(s.db)
    ensures var (t, reply) := RemoveConfigForLastUser(s, h);
            && Inv(t, parallelism) && Settled(t, parallelism) && UsersOk(t.db)
            && (reply == SyncStillActive <==> h in Hashes(s.running))
            && (reply == SyncStillActive ==> t == s)
            && (reply != SyncStillActive ==> reply == Removed && h !in t.db.configs && h !in Busy(t))
  {
    hide RemoveConfigForLastUser;
    if h in s.db.configs {
      RemoveLastUserKeeps(s, h, parallelism);
      RemoveReplies(s, h);
    } else {
      RemoveUnknownKeeps(s, h, parallelism);
      ActiveIffBusy(s, h, parallelism);
    }
  }

  lemma RemoveReplies(s: Server, h: string)
    ensures RemoveConfigForLastUser(s, h).1 in {SyncStillActive, Removed}
  {
  }

  lemma RemoveUserKeeps(s: Server, h: string, user: string, parallelism: nat)
    requires parallelism >= 1 && Inv(s, parallelism) && Settled(s, parallelism) && UsersOk(s.db)
    ensures var (t, reply) := RemoveUser(s, h, user);
            Inv(t, parallelism) && Settled(t, parallelism) && UsersOk(t.db)
  {
    var (t, reply) := RemoveUser(s, h, user);
    if h in s.db.configs && user in s.db.configs[h].users {
      if s.db.configs[h].users - {user} != {} {
        UnlinkKeeps(s, h, user, parallelism);
      } else {
        RemoveLastUserKeeps(s, h, parallelism);
      }
    }
  }
}
