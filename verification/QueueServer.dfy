/**
 * The server process: the room tables and the in-memory queue, updated in place by the same
 * operations, loops and branches as the source. Every public operation keeps the process `Valid`:
 * rooms, jobs, slots and history in step, for every hash.
 */
module QueueServer {
  import opened Wrappers
  import opened RoomDb
  import opened QueueSpec
  import opened RoomInvariant
  import opened RoomSteps
  import opened RoomProtocol
  import opened QueueEffects
  import RoomRestart
  import RoomSweep

  class PrefetchServer {
    const limits: Limits

    // Tables
    var configs: map<string, Config>
    var rooms: map<nat, Room>
    var nextRoomId: nat
    var logs: map<string, seq<string>>

    // Process memory
    var fifoQueue: seq<Job>
    var runningCount: nat
    var running: seq<Job>
    var runningChildren: set<string>
    var pendingUserCancelHashes: set<string>

    // What happened, for the specification only
    ghost var history: map<nat, seq<Status>>
    ghost var accepted: map<nat, nat>

    /** What also holds in the middle of an operation. */
    ghost predicate Consistent()
      reads this
    {
      limits.parallelism >= 1 && runningCount == |running|
    }

    /** Between operations: the counter counts, and the whole state is one a run of the protocol keeps to. */
    ghost predicate Valid()
      reads this
    {
      Consistent() && Good(View(), limits)
    }

    ghost function Tables(): Db
      reads this
    {
      Db(configs, rooms, nextRoomId, logs)
    }

    ghost function View(): Server
      reads this
    {
      Server(Tables(), fifoQueue, running, runningChildren, pendingUserCancelHashes, history, accepted)
    }

    /** A process that has just started on existing tables, before its sweep. */
    constructor (limits: Limits, db: Db, ghost history: map<nat, seq<Status>>, ghost accepted: map<nat, nat>)
      requires limits.parallelism >= 1
      ensures Consistent() && this.limits == limits
      ensures View() == Server(db, [], [], {}, {}, history, accepted)
    {
      this.limits := limits;
      configs, rooms, nextRoomId, logs := db.configs, db.rooms, db.nextRoomId, db.logs;
      fifoQueue, runningCount, running := [], 0, [];
      runningChildren, pendingUserCancelHashes := {}, {};
      this.history, this.accepted := history, accepted;
    }

    // Room statements

    method UpdateRoomStatus(roomId: nat, status: Status)
      modifies this`rooms
      ensures View() == old(View()).(db := SetStatus(old(Tables()), roomId, status))
    {
      if roomId in rooms {
        rooms := rooms[roomId := rooms[roomId].(status := Some(status))];
      }
    }

    method UpdateRoomClosedState(roomId: nat, status: Status, closedReason: string)
      modifies this`rooms
      ensures View() == old(View()).(db := CloseRoom(old(Tables()), roomId, status, closedReason))
    {
      var lastOutcome := TerminalToLastOutcome(status);
      if roomId in rooms {
        var room := rooms[roomId];
        rooms := rooms[roomId := room.(status := Some(status), closedReason := Some(closedReason),
                                       lastOutcome := if lastOutcome.Some? then lastOutcome else room.lastOutcome)];
      }
    }

    method FinalizeRoomRunSuccess(roomId: nat)
      modifies this`rooms
      ensures View() == old(View()).(db := FinalizeRun(old(Tables()), roomId))
    {
      if roomId in rooms {
        rooms := rooms[roomId := rooms[roomId].(status := Some(Idle), closedReason := None, lastOutcome := Some(Completed))];
      }
    }

    method ResetRoomToIdle(roomId: nat, clearClosedReason: bool)
      modifies this`rooms
      ensures View() == old(View()).(db := ResetToIdle(old(Tables()), roomId, clearClosedReason))
    {
      if roomId in rooms {
        if clearClosedReason {
          rooms := rooms[roomId := rooms[roomId].(closedReason := None)];
        }
        rooms := rooms[roomId := rooms[roomId].(status := Some(Idle))];
        assert rooms == ResetToIdle(old(Tables()), roomId, clearClosedReason).rooms;
      }
    }

    method RecycleRoomRowToQueued(roomId: nat, user: string)
      modifies this`rooms
      ensures View() == old(View()).(db := RecycleToQueued(old(Tables()), roomId, user))
    {
      if roomId in rooms {
        rooms := rooms[roomId := rooms[roomId].(status := Some(Queued), triggeredBy := user, closedReason := None)];
      }
    }

    /** A linked room's id, read through the join of `hash_config` and `room`. */
    method SelectLinkedRoom(hash: string) returns (roomId: Option<nat>)
      ensures roomId == LinkedRoom(Tables(), hash)
    {
      roomId := None;
      if hash in configs {
        var config := configs[hash];
        if config.roomId.Some? && config.roomId.value in rooms {
          roomId := config.roomId;
        }
      }
    }

    method InsertIdleRoomLinked(hash: string, user: string) returns (roomId: nat)
      requires hash in configs
      modifies this`rooms, this`nextRoomId, this`configs
      ensures View() == old(View()).(db := InsertLinkedRoom(old(Tables()), hash, user))
      ensures roomId == old(nextRoomId)
    {
      roomId := nextRoomId;
      nextRoomId := nextRoomId + 1;
      rooms := rooms[roomId := Room(Some(Idle), user, None, None)];
      configs := configs[hash := configs[hash].(roomId := Some(roomId))];
    }

    method TryQueueRoom(hash: string, user: string) returns (result: TryQueueResult)
      modifies this`rooms, this`nextRoomId, this`configs
      ensures View() == old(View()).(db := RoomDb.TryQueueRoom(old(Tables()), hash, user).0)
      ensures result == RoomDb.TryQueueRoom(old(Tables()), hash, user).1
    {
      if hash !in configs {
        return ConfigMissing;
      }
      var linked := SelectLinkedRoom(hash);
      if linked.Some? && IsActive(rooms[linked.value].status) {
        return ActiveSync;
      }
      if linked.None? {
        var roomId := InsertIdleRoomLinked(hash, user);
        RecycleRoomRowToQueued(roomId, user);
        return RoomQueued(roomId);
      }
      RecycleRoomRowToQueued(linked.value, user);
      return RoomQueued(linked.value);
    }

    method CancelQueuedRoom(hash: string, closedReason: string)
      modifies this`rooms
      ensures View() == old(View()).(db := RoomDb.CancelQueuedRoom(old(Tables()), hash, closedReason))
    {
      var linked := SelectLinkedRoom(hash);
      if linked.Some? && rooms[linked.value].status == Some(Queued) {
        UpdateRoomClosedState(linked.value, Cancelled, closedReason);
      }
    }

    method MaybeResetTerminalRoomToIdle(hash: string)
      modifies this`rooms
      ensures View() == old(View()).(db := MaybeResetTerminal(old(Tables()), hash))
    {
      var linked := SelectLinkedRoom(hash);
      if linked.None? || IsActive(rooms[linked.value].status) || !IsTerminal(rooms[linked.value].status) {
        return;
      }
      var closedReason := rooms[linked.value].closedReason;
      var keepClosedReason := closedReason.Some? && closedReason.value != "";
      ResetRoomToIdle(linked.value, !keepClosedReason);
    }

    method ReconcileSuccessAfterWorker(hash: string, roomId: nat)
      modifies this`rooms
      ensures View() == old(View()).(db := ReconcileSuccess(old(Tables()), hash, roomId))
    {
      var linked := SelectLinkedRoom(hash);
      if linked.Some? && IsActive(rooms[linked.value].status) {
        FinalizeRoomRunSuccess(roomId);
      }
    }

    method PreemptRoomLogsForNewRun(hash: string)
      modifies this`logs
      ensures View() == old(View()).(db := ClearLogs(old(Tables()), hash))
    {
      logs := logs[hash := []];
    }

    method AppendRoomLogStreamLine(hash: string, line: string)
      modifies this`logs
      ensures View() == old(View()).(db := AppendLog(old(Tables()), hash, line))
    {
      logs := logs[hash := (if hash in logs then logs[hash] else []) + [line]];
    }

    // The queue

    method ScheduleDrain()
      requires Consistent()
      modifies this
      ensures Consistent() && View() == Drain(old(View()), limits.parallelism)
      ensures var n := Due(old(View()), limits.parallelism);
              && fifoQueue == old(fifoQueue)[n..] && running == old(running) + old(fifoQueue)[..n]
              && FirstStarted(old(View()), View(), n)
    {
      DrainStartsFirst(View(), limits.parallelism);
      while runningCount < limits.parallelism && fifoQueue != []
        invariant Consistent()
        invariant Drain(View(), limits.parallelism) == Drain(old(View()), limits.parallelism)
        decreases |fifoQueue|
      {
        ghost var before := View();
        var nextJob := fifoQueue[0];
        fifoQueue := fifoQueue[1..];
        runningCount := runningCount + 1;
        running := running + [nextJob];
        UpdateRoomStatus(nextJob.roomId, Running);
        runningChildren := runningChildren + {nextJob.hash};
        assert View() == StartNext(before);
      }
    }

    method PurgePrefetchSyncQueueJob(hash: string) returns (removed: seq<Job>)
      modifies this`fifoQueue
      ensures removed == JobsOf(old(fifoQueue), hash)
      ensures View() == Purge(old(View()), hash)
    {
      removed := [];
      var kept: seq<Job> := [];
      for i := 0 to |fifoQueue|
        invariant removed == JobsOf(fifoQueue[..i], hash)
        invariant kept == JobsExcept(fifoQueue[..i], hash)
      {
        assert fifoQueue[..i + 1][..i] == fifoQueue[..i];
        if fifoQueue[i].hash == hash {
          removed := removed + [fifoQueue[i]];
        } else {
          kept := kept + [fifoQueue[i]];
        }
      }
      assert fifoQueue[..|fifoQueue|] == fifoQueue;
      fifoQueue := kept;
      var position := 1;
      while position <= |fifoQueue|
        invariant 1 <= position <= |kept| + 1 && |fifoQueue| == |kept|
        invariant forall k :: 0 <= k < position - 1 ==> fifoQueue[k] == kept[k].(queuePosition := k + 1)
        invariant forall k :: position - 1 <= k < |kept| ==> fifoQueue[k] == kept[k]
      {
        fifoQueue := fifoQueue[position - 1 := fifoQueue[position - 1].(queuePosition := position)];
        position := position + 1;
      }
      assert fifoQueue == Renumber(kept);
    }

    /** The waiting slot of a hash, if its job has not been picked up yet. */
    method GetWaitingPrefetchJob(hash: string) returns (job: Option<Job>)
      ensures job.None? <==> forall i :: 0 <= i < |fifoQueue| ==> fifoQueue[i].hash != hash
      ensures job.Some? ==> exists i :: 0 <= i < |fifoQueue| && fifoQueue[i] == job.value && fifoQueue[i].hash == hash
                                     && forall k :: 0 <= k < i ==> fifoQueue[k].hash != hash
    {
      for i := 0 to |fifoQueue|
        invariant forall k :: 0 <= k < i ==> fifoQueue[k].hash != hash
      {
        if fifoQueue[i].hash == hash {
          return Some(fifoQueue[i]);
        }
      }
      return None;
    }

    method EnqueueSyncJob(avgMsFromDb: Option<int>, hash: string, user: string, source: Source)
      returns (result: EnqueueResult)
      requires Valid()
      modifies this
      ensures Valid() && Agrees(View(), hash)
      ensures (View(), result) == Enqueue(old(View()), limits, avgMsFromDb, hash, user, source)
      ensures Enqueued(old(View()), View(), limits, avgMsFromDb, hash, user, source, result)
      ensures result.Accepted? <==>
                !TooLong(old(View()), limits, avgMsFromDb) && hash in old(configs) && hash !in Busy(old(View()))
      ensures Busy(View()) == Busy(old(View())) + if result.Accepted? then {hash} else {}
    {
      hide Drain, RoomDb.TryQueueRoom, RoomDb.ClearLogs, EstimateWaitMs, CeilDiv, Good, Agrees, TooLong, Busy, Enqueued, FirstStarted, Due;
      EnqueueStays(View(), limits, avgMsFromDb, hash, user, source);
      var usable := UsableAvg(avgMsFromDb);
      var avgMsForBacklog := if usable.Some? then usable.value else limits.fallbackMs;
      var backlogMs := CeilDiv(|fifoQueue| + 1, limits.parallelism) * avgMsForBacklog;
      if backlogMs > limits.maxBacklogMs {
        return BacklogExceeded;
      }
      var roomOutcome := TryQueueRoom(hash, user);
      if roomOutcome.ActiveSync? {
        return AlreadyActive;
      }
      if roomOutcome.ConfigMissing? {
        return ConfigNotFound;
      }
      var queuePosition := |fifoQueue| + 1;
      var estimatedWaitMs :=
        if usable.Some? then Some(EstimateWaitMs(queuePosition, usable.value, limits.parallelism)) else None;
      fifoQueue := fifoQueue + [Job(hash, roomOutcome.roomId, user, source, queuePosition, estimatedWaitMs, usable)];
      accepted := accepted[roomOutcome.roomId := AcceptedOf(View(), roomOutcome.roomId) + 1];
      PreemptRoomLogsForNewRun(hash);
      ScheduleDrain();
      return Accepted(estimatedWaitMs, queuePosition, roomOutcome.roomId);
    }

    /** Closes the room of every removed job. */
    method CloseRemovedJobs(removed: seq<Job>, closedReason: string)
      modifies this`rooms, this`history
      ensures View() == RecordAll(old(View()).(db := CloseJobs(old(Tables()), removed, closedReason)), removed, Cancelled)
    {
      for i := 0 to |removed|
        invariant Tables() == CloseJobs(old(Tables()), removed[..i], closedReason)
        invariant View() == RecordAll(old(View()).(db := Tables()), removed[..i], Cancelled)
        invariant unchanged(this`configs, this`nextRoomId, this`logs)
      {
        assert removed[..i + 1][..i] == removed[..i];
        ghost var before := Tables();
        UpdateRoomClosedState(removed[i].roomId, Cancelled, closedReason);
        RecordIgnoresTables(old(View()), before, Tables(), removed[..i]);
        history := history[removed[i].roomId := HistoryOf(View(), removed[i].roomId) + [Cancelled]];
      }
      assert removed[..|removed|] == removed;
    }

    method CancelQueuedPrefetchJob(hash: string) returns (cancelled: bool)
      modifies this`rooms, this`history, this`fifoQueue
      ensures (View(), cancelled) == CancelQueued(old(View()), hash)
    {
      var removed := PurgePrefetchSyncQueueJob(hash);
      CloseRemovedJobs(removed, USER_CANCELLED);
      if |removed| > 0 {
        MaybeResetTerminalRoomToIdle(hash);
      }
      return |removed| > 0;
    }

    method RequestCancelRunningPrefetch(hash: string, roomId: nat)
      modifies this`rooms, this`pendingUserCancelHashes
      ensures View() == RequestCancelRunning(old(View()), hash, roomId)
    {
      var killed := hash in runningChildren;
      if killed {
        pendingUserCancelHashes := pendingUserCancelHashes + {hash};
        return;
      }
      UpdateRoomClosedState(roomId, Cancelled, USER_CANCELLED);
      MaybeResetTerminalRoomToIdle(hash);
    }

    method HandlePostHashCancel(hash: string, user: string) returns (reply: CancelReply)
      requires Valid()
      modifies this`rooms, this`history, this`fifoQueue, this`pendingUserCancelHashes
      ensures Valid() && Agrees(View(), hash)
      ensures (View(), reply) == PostHashCancel(old(View()), hash, user)
      ensures CancelHandled(old(View()), View(), hash, user, reply)
      ensures reply == CancelledQueued ==> hash in Hashes(old(fifoQueue)) && hash !in Busy(View())
      ensures reply == CancelledRunning ==> hash in pendingUserCancelHashes && hash in Hashes(running)
      ensures reply != CancelledQueued && reply != CancelledRunning ==> View() == old(View())
    {
      hide CancelQueued, RequestCancelRunning, RoomDb.CancelQueuedRoom, Good, Agrees, Hashes, Busy, CancelHandled;
      CancelStays(View(), limits, hash, user);
      if !(hash in configs && user in configs[hash].users) {
        return CancelNotLinked;
      }
      var linked := SelectLinkedRoom(hash);
      if linked.None? || !IsActive(rooms[linked.value].status) {
        return NothingToCancel;
      }
      if rooms[linked.value].triggeredBy != user {
        return NotTheTrigger;
      }
      if rooms[linked.value].status == Some(Queued) {
        var removedFromFifo := CancelQueuedPrefetchJob(hash);
        if !removedFromFifo {
          CancelQueuedRoom(hash, USER_CANCELLED);
        }
        return CancelledQueued;
      }
      RequestCancelRunningPrefetch(hash, linked.value);
      return CancelledRunning;
    }

    /** The part of a run after its worker ended: handle the report, free the slot, drain. */
    method FinishQueueJob(i: nat, exit: Exit)
      requires Valid() && i < |running| && exit.Possible()
      modifies this
      ensures Valid() && Agrees(View(), old(running[i].hash))
      ensures View() == WorkerExit(old(View()), limits.parallelism, i, exit)
      ensures Ended(old(View()), View(), limits.parallelism, i, exit)
      ensures Busy(View()) == Busy(old(View())) - {old(running[i].hash)}
    {
      hide HandleReport, Drain, Verdict, RoomDb.FinalizeRun, RoomDb.MaybeResetTerminal, Good, Agrees, Busy, Exit.Possible,
           Ended, FirstStarted, Due;
      ExitStays(View(), limits, i, exit);
      var job := running[i];
      ghost var verdict := Verdict(exit, job.hash in pendingUserCancelHashes);
      if exit.committed {
        FinalizeRoomRunSuccess(job.roomId);
      }
      runningChildren := runningChildren - {job.hash};
      HandleWorkerReport(job, exit.report);
      running := running[..i] + running[i + 1..];
      runningCount := runningCount - 1;
      history := history[job.roomId := HistoryOf(View(), job.roomId) + [verdict]];
      MaybeResetTerminalRoomToIdle(job.hash);
      ScheduleDrain();
    }

    method HandleWorkerReport(job: Job, report: Report)
      modifies this`rooms, this`pendingUserCancelHashes
      ensures View() == HandleReport(old(View()), job, report)
    {
      var cancelRequested := job.hash in pendingUserCancelHashes;
      pendingUserCancelHashes := pendingUserCancelHashes - {job.hash};
      match report {
        case ReportOk =>
          ReconcileSuccessAfterWorker(job.hash, job.roomId);
        case OkThenError(message) =>
          UpdateRoomClosedState(job.roomId, Failed, ClosedReason(message));
        case ReportFailed(message) =>
          if cancelRequested {
            UpdateRoomClosedState(job.roomId, Cancelled, USER_CANCELLED);
          } else {
            UpdateRoomClosedState(job.roomId, Failed, ClosedReason(message));
          }
        case SpawnError(message) =>
          if cancelRequested {
            UpdateRoomClosedState(job.roomId, Cancelled, USER_CANCELLED);
          } else {
            UpdateRoomClosedState(job.roomId, Failed, ClosedReason(message));
          }
      }
    }

    // Users and configs

    method UpsertHashConfigAndUserBridge(hash: string, user: string)
      requires Valid()
      modifies this`configs, this`rooms, this`nextRoomId
      ensures Valid() && Agrees(View(), hash)
      ensures View() == LinkUser(old(View()), hash, user) && UserLinked(old(View()), View(), hash, user)
      ensures LinkedRoom(Tables(), hash).Some? && user in configs[hash].users
      ensures LinkedRoom(old(Tables()), hash).None? ==> RoomStatus(Tables(), hash) == Some(Idle)
    {
      hide Good, Agrees, UserLinked;
      LinkStays(View(), limits, hash, user);
      if hash !in configs {
        configs := configs[hash := Config(None, {})];
      }
      var linked := SelectLinkedRoom(hash);
      if linked.None? {
        var roomId := InsertIdleRoomLinked(hash, user);
      }
      configs := configs[hash := configs[hash].(users := configs[hash].users + {user})];
    }

    method DeleteHashConfigCascade(hash: string)
      modifies this`configs, this`rooms, this`logs
      ensures View() == old(View()).(db := DeleteConfigCascade(old(Tables()), hash))
    {
      if hash in configs && configs[hash].roomId.Some? {
        var roomId := configs[hash].roomId.value;
        rooms := rooms - {roomId};
        configs := map h | h in configs ::
          if configs[h].roomId == Some(roomId) then configs[h].(roomId := None) else configs[h];
      }
      configs := configs - {hash};
      logs := logs - {hash};
    }

    method RemoveHashConfigForLastUser(hash: string) returns (reply: RemoveReply)
      requires Valid()
      modifies this`configs, this`rooms, this`logs, this`history, this`fifoQueue
      ensures Valid() && Agrees(View(), hash)
      ensures (View(), reply) == RemoveConfigForLastUser(old(View()), hash)
      ensures reply == SyncStillActive <==> hash in Hashes(old(running))
      ensures reply == SyncStillActive ==> View() == old(View())
      ensures reply != SyncStillActive ==> reply == Removed && HashGone(old(View()), View(), hash) && hash !in Busy(View())
    {
      hide RoomDb.CancelQueuedRoom, RoomDb.DeleteConfigCascade, JobsOf, Purge, CloseJobs, RecordAll, Good, Agrees, Hashes, Busy,
           HashGone;
      RemoveConfigStays(View(), limits, hash);
      var linked := SelectLinkedRoom(hash);
      if linked.Some? && (rooms[linked.value].status == Some(Running) || rooms[linked.value].status == Some(Fetching)) {
        return SyncStillActive;
      }
      var removedWaitingJobs := PurgePrefetchSyncQueueJob(hash);
      CloseRemovedJobs(removedWaitingJobs, CONFIG_DELETED);
      CancelQueuedRoom(hash, CONFIG_DELETED);
      DeleteHashConfigCascade(hash);
      return Removed;
    }

    method DeleteUserHashBridgeRow(hash: string, user: string)
      modifies this`configs
      ensures View() == old(View()).(db := UnlinkUser(old(Tables()), hash, user))
    {
      if hash in configs {
        configs := configs[hash := configs[hash].(users := configs[hash].users - {user})];
      }
    }

    /** The user leaves; the config goes with its last user unless a worker is at it. */
    method HandleDeleteConfig(hash: string, user: string) returns (reply: RemoveReply)
      requires Valid()
      modifies this`configs, this`rooms, this`logs, this`history, this`fifoQueue
      ensures Valid() && Agrees(View(), hash)
      ensures (View(), reply) == RemoveUser(old(View()), hash, user)
      ensures UserRemoved(old(View()), View(), hash, user, reply)
      ensures reply == Unlinked <==>
                hash in old(configs) && user in old(configs)[hash].users && old(configs)[hash].users - {user} != {}
      ensures reply == Unlinked ==>
                && configs == old(configs)[hash := old(configs)[hash].(users := old(configs)[hash].users - {user})]
                && unchanged(`rooms, `logs, `fifoQueue, `running, `nextRoomId, `history)
    {
      hide RemoveConfigForLastUser, Good, Agrees, Hashes, Busy, HashGone, Works, Waits;
      RemoveUserStays(View(), limits, hash, user);
      if !(hash in configs && user in configs[hash].users) {
        return RemoveNotLinked;
      }
      var otherUsers := configs[hash].users - {user};
      if otherUsers != {} {
        DeleteUserHashBridgeRow(hash, user);
        return Unlinked;
      }
      reply := RemoveHashConfigForLastUser(hash);
    }

    // Startup

    method FailOrphanedActiveRooms(linked: seq<LinkedRow>) returns (failedCount: nat)
      modifies this`rooms, this`logs
      ensures View() == old(View()).(db := FailActive(old(Tables()), linked))
      ensures failedCount == ActiveCount(linked)
    {
      failedCount := 0;
      for i := 0 to |linked|
        invariant View() == old(View()).(db := FailActive(old(Tables()), linked[..i]))
        invariant failedCount == ActiveCount(linked[..i])
      {
        assert linked[..i + 1][..i] == linked[..i];
        var row := linked[i];
        if !IsActive(row.status) {
          continue;
        }
        UpdateRoomClosedState(row.roomId, Failed, PROCESS_RESTARTED);
        AppendRoomLogStreamLine(row.hash, RESTARTED_LINE);
        MaybeResetTerminalRoomToIdle(row.hash);
        failedCount := failedCount + 1;
      }
      assert linked[..|linked|] == linked;
    }

    method ResetTerminalRooms(linked: seq<LinkedRow>)
      modifies this`rooms
      ensures View() == old(View()).(db := ResetTerminals(old(Tables()), linked))
    {
      for i := 0 to |linked|
        invariant View() == old(View()).(db := ResetTerminals(old(Tables()), linked[..i]))
      {
        assert linked[..i + 1][..i] == linked[..i];
        if IsTerminal(linked[i].status) {
          MaybeResetTerminalRoomToIdle(linked[i].hash);
        }
      }
      assert linked[..|linked|] == linked;
    }

    method DeleteOrphanRoomRows()
      modifies this`rooms
      ensures View() == old(View()).(db := DeleteOrphans(old(Tables())))
    {
      var linkedIds := set h | h in configs && configs[h].roomId.Some? :: configs[h].roomId.value;
      rooms := map r | r in rooms && r in linkedIds :: rooms[r];
    }

    /**
     * Makes a process on any tables the schema allows valid, whatever its predecessor left in the
     * rooms. `linked` is what the listing query returns after orphans are gone.
     */
    method SweepTerminalRoomsOnStartup(linked: seq<LinkedRow>) returns (failedCount: nat)
      requires Consistent() && ListsLinkedRooms(DeleteOrphans(Tables()), linked)
      requires View() == Server(Tables(), [], [], {}, {}, history, accepted)
      requires LinksOk(View()) && UsersOk(Tables()) && RoomRestart.HistoryFits(View())
      modifies this`rooms, this`logs
      ensures Valid() && RoomSweep.AllSettled(Tables())
      ensures View() == old(View()).(db := Sweep(old(Tables()), linked))
      ensures failedCount == |ActiveRows(linked)|
      ensures TablesSweptTo(old(Tables()), Tables())
    {
      hide TablesSweptTo, Good, UsersOk, LinksOk, RoomRestart.HistoryFits, RoomSweep.AllSettled, RoomDb.FailActive, RoomDb.ResetTerminals,
           RoomDb.DeleteOrphans, ListsLinkedRooms;
      SweepStarts(View(), limits, linked);
      ActiveCountIs(linked);
      DeleteOrphanRoomRows();
      failedCount := FailOrphanedActiveRooms(linked);
      ResetTerminalRooms(linked);
    }
  }

  lemma {:induction false} RecordIgnoresTables(s: Server, before: Db, after: Db, jobs: seq<Job>)
    ensures RecordAll(s.(db := after), jobs, Cancelled) == RecordAll(s.(db := before), jobs, Cancelled).(db := after)
  {
    if jobs == [] {
    } else {
      RecordIgnoresTables(s, before, after, jobs[..|jobs| - 1]);
    }
  }

  // Each operation stays within what runs of the protocol keep

  lemma EnqueueStays(s: Server, limits: Limits, avg: Option<int>, h: string, user: string, source: Source)
    requires limits.parallelism >= 1 && Good(s, limits)
    ensures var (t, result) := Enqueue(s, limits, avg, h, user, source);
            && Good(t, limits) && Agrees(t, h) && Enqueued(s, t, limits, avg, h, user, source, result)
            && (result.Accepted? <==> !TooLong(s, limits, avg) && h in s.db.configs && h !in Busy(s))
            && Busy(t) == Busy(s) + if result.Accepted? then {h} else {}
  {
    hide Enqueue, Overfull, TooLong, Busy, Agrees, Inv, Settled, UsersOk, Enqueued;
    TooLongIffOverfull(s, limits, avg);
    EnqueueDoes(s, limits, avg, h, user, source);
    EnqueueKeeps(s, limits, avg, h, user, source);
    ActiveIffBusy(s, h, limits.parallelism);
    GoodAgrees(Enqueue(s, limits, avg, h, user, source).0, limits, h);
  }

  lemma CancelStays(s: Server, limits: Limits, h: string, user: string)
    requires limits.parallelism >= 1 && Good(s, limits)
    ensures var (t, reply) := PostHashCancel(s, h, user);
            && Good(t, limits) && Agrees(t, h) && CancelHandled(s, t, h, user, reply)
            && (reply == CancelledQueued ==> h in Hashes(s.fifo) && h !in Busy(t))
            && (reply == CancelledRunning ==> h in t.pendingCancel && h in Hashes(t.running))
            && (reply != CancelledQueued && reply != CancelledRunning ==> t == s)
  {
    hide CancelQueued, Agrees, Hashes, CancelHandled;
    CancelDoes(s, h, user, limits.parallelism);
    PostHashCancelKeeps(s, h, user, limits.parallelism);
    var (t, reply) := PostHashCancel(s, h, user);
    GoodAgrees(t, limits, h);
    if reply == CancelledQueued {
      CancelQueuedKeeps(s, h, limits.parallelism);
    }
  }

  lemma ExitStays(s: Server, limits: Limits, i: nat, exit: Exit)
    requires limits.parallelism >= 1 && Good(s, limits) && i < |s.running| && exit.Possible()
    ensures var t := WorkerExit(s, limits.parallelism, i, exit);
            && Good(t, limits) && Agrees(t, s.running[i].hash) && Busy(t) == Busy(s) - {s.running[i].hash}
            && Ended(s, t, limits.parallelism, i, exit)
  {
    hide WorkerExit, Agrees, Busy, Inv, Settled, Ended;
    ExitDoes(s, limits.parallelism, i, exit);
    WorkerExitKeeps(s, limits.parallelism, i, exit);
    GoodAgrees(WorkerExit(s, limits.parallelism, i, exit), limits, s.running[i].hash);
  }

  lemma LinkStays(s: Server, limits: Limits, h: string, user: string)
    requires limits.parallelism >= 1 && Good(s, limits)
    ensures var t := LinkUser(s, h, user);
            && Good(t, limits) && Agrees(t, h) && UserLinked(s, t, h, user) && LinkedRoom(t.db, h).Some? && user in t.db.configs[h].users
            && (LinkedRoom(s.db, h).None? ==> RoomStatus(t.db, h) == Some(Idle))
  {
    hide RoomDb.UpsertConfig, Agrees, Inv, UsersOk, UserLinked;
    NextRoomIsNew(s, limits.parallelism);
    LinkDoes(s, h, user);
    LinkUserKeeps(s, h, user, limits.parallelism);
    GoodAgrees(LinkUser(s, h, user), limits, h);
  }

  lemma RemoveConfigStays(s: Server, limits: Limits, h: string)
    requires limits.parallelism >= 1 && Good(s, limits)
    ensures var (t, reply) := RemoveConfigForLastUser(s, h);
            && Good(t, limits) && Agrees(t, h)
            && (reply == SyncStillActive <==> h in Hashes(s.running))
            && (reply == SyncStillActive ==> t == s)
            && (reply != SyncStillActive ==> reply == Removed && HashGone(s, t, h) && h !in Busy(t))
  {
    hide RemoveConfigForLastUser, Agrees, Inv, UsersOk, Settled, Busy, Hashes, HashGone, Works;
    if h in s.db.configs {
      RemoveKnownDoes(s, h, limits.parallelism);
    } else {
      RemoveUnknownDoes(s, h, limits.parallelism);
    }
    RemoveConfigKeeps(s, h, limits.parallelism);
    GoodAgrees(RemoveConfigForLastUser(s, h).0, limits, h);
  }

  lemma RemoveUserStays(s: Server, limits: Limits, h: string, user: string)
    requires limits.parallelism >= 1 && Good(s, limits)
    ensures var (t, reply) := RemoveUser(s, h, user); Good(t, limits) && Agrees(t, h) && UserRemoved(s, t, h, user, reply)
  {
    hide RemoveUser, Agrees, Inv, UsersOk, Settled, UserRemoved;
    RemoveDoes(s, h, user, limits.parallelism);
    RemoveUserKeeps(s, h, user, limits.parallelism);
    GoodAgrees(RemoveUser(s, h, user).0, limits, h);
  }

  lemma SweepStarts(s: Server, limits: Limits, rows: seq<LinkedRow>)
    requires limits.parallelism >= 1 && ListsLinkedRooms(DeleteOrphans(s.db), rows)
    requires s == Server(s.db, [], [], {}, {}, s.history, s.accepted)
    requires LinksOk(s) && UsersOk(s.db) && RoomRestart.HistoryFits(s)
    ensures Good(s.(db := Sweep(s.db, rows)), limits) && RoomSweep.AllSettled(Sweep(s.db, rows))
    ensures TablesSweptTo(s.db, Sweep(s.db, rows))
  {
    hide RoomDb.Sweep, Inv, RoomRestart.HistoryFits, TablesSweptTo, ListsLinkedRooms;
    SweepDoes(s.db, rows);
    RoomRestart.SweptIsConsistent(s, rows, limits.parallelism);
  }
}
