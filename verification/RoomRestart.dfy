/** A crash at any moment, followed by the next process's startup sweep, restores the invariant. */
module RoomRestart {
  import opened Wrappers
  import opened RoomDb
  import opened QueueSpec
  import opened RoomInvariant
  import opened RoomSweep

  ghost function RoomsOf(jobs: seq<Job>): set<nat> {
    set job | job in jobs :: job.roomId
  }

  ghost predicate DistinctRooms(jobs: seq<Job>) {
    forall i, j :: 0 <= i < j < |jobs| ==> jobs[i].roomId != jobs[j].roomId
  }

  lemma DistinctHashesDistinctRooms(s: Server, jobs: seq<Job>)
    requires LinksOk(s) && DistinctHashes(jobs) && forall job | job in jobs :: Placed(s.db, job)
    ensures DistinctRooms(jobs)
  {
    forall i, j | 0 <= i < j < |jobs|
      ensures jobs[i].roomId != jobs[j].roomId
    {
      assert Placed(s.db, jobs[i]) && Placed(s.db, jobs[j]);
    }
  }

  lemma LastJob(jobs: seq<Job>)
    requires jobs != [] && DistinctRooms(jobs)
    ensures RoomsOf(jobs) == RoomsOf(jobs[..|jobs| - 1]) + {jobs[|jobs| - 1].roomId}
    ensures jobs[|jobs| - 1].roomId !in RoomsOf(jobs[..|jobs| - 1])
    ensures forall job | job in jobs :: job in jobs[..|jobs| - 1] || job == jobs[|jobs| - 1]
    ensures DistinctRooms(jobs[..|jobs| - 1])
  {
    assert jobs == jobs[..|jobs| - 1] + [jobs[|jobs| - 1]];
    assert jobs[|jobs| - 1] in jobs;
  }

  /** Each room in `gained` has that outcome appended to its history, no other room has. */
  ghost predicate Recorded(s: Server, t: Server, gained: map<nat, Status>) {
    && (forall r: nat :: HistoryOf(t, r) == HistoryOf(s, r) + if r in gained then [gained[r]] else [])
    && (forall r | r in t.history :: r in s.history || r in gained)
  }

  lemma RecordedStep(s: Server, t: Server, gained: map<nat, Status>, roomId: nat, outcome: Status)
    requires Recorded(s, t, gained) && roomId !in gained
    ensures Recorded(s, Record(t, roomId, outcome), gained[roomId := outcome])
  {
  }

  ghost function GainedAll(jobs: seq<Job>, outcome: Status): map<nat, Status> {
    map r | r in RoomsOf(jobs) :: outcome
  }

  lemma LastGained(jobs: seq<Job>, outcome: Status)
    requires jobs != [] && DistinctRooms(jobs)
    ensures GainedAll(jobs, outcome) == GainedAll(jobs[..|jobs| - 1], outcome)[jobs[|jobs| - 1].roomId := outcome]
    ensures jobs[|jobs| - 1].roomId !in GainedAll(jobs[..|jobs| - 1], outcome)
  {
    LastJob(jobs);
  }

  lemma {:induction false} RecordAllEffect(s: Server, jobs: seq<Job>, outcome: Status)
    requires DistinctRooms(jobs)
    ensures Recorded(s, RecordAll(s, jobs, outcome), GainedAll(jobs, outcome))
    ensures RecordAll(s, jobs, outcome) == s.(history := RecordAll(s, jobs, outcome).history)
  {
    if jobs == [] {
    } else {
      var init, last := jobs[..|jobs| - 1], jobs[|jobs| - 1];
      LastJob(jobs);
      RecordAllEffect(s, init, outcome);
      LastGained(jobs, outcome);
      RecordedStep(s, RecordAll(s, init, outcome), GainedAll(init, outcome), last.roomId, outcome);
    }
  }

  ghost function LandedRoom(room: Room): Room {
    room.(status := Some(Idle), closedReason := None, lastOutcome := Some(Completed))
  }

  /** The rooms of the jobs whose commit landed. */
  ghost function LandedIds(jobs: seq<Job>, landed: set<string>): set<nat> {
    set job | job in jobs && job.hash in landed :: job.roomId
  }

  ghost predicate RoomsLanded(before: Db, after: Db, ids: set<nat>) {
    && after == before.(rooms := after.rooms) && after.rooms.Keys == before.rooms.Keys
    && forall r | r in before.rooms ::
         after.rooms[r] == if r in ids then LandedRoom(before.rooms[r]) else before.rooms[r]
  }

  lemma RoomsLandedStep(before: Db, after: Db, ids: set<nat>, roomId: nat)
    requires RoomsLanded(before, after, ids)
    ensures RoomsLanded(before, FinalizeRun(after, roomId), ids + {roomId})
  {
  }

  ghost function GainedByCrash(jobs: seq<Job>, landed: set<string>): map<nat, Status> {
    map r | r in RoomsOf(jobs) :: if r in LandedIds(jobs, landed) then Completed else Failed
  }

  lemma LastLandedId(jobs: seq<Job>, landed: set<string>)
    requires jobs != []
    ensures var init, last := jobs[..|jobs| - 1], jobs[|jobs| - 1];
            LandedIds(jobs, landed) == LandedIds(init, landed) + (if last.hash in landed then {last.roomId} else {})
  {
    var init, last := jobs[..|jobs| - 1], jobs[|jobs| - 1];
    assert jobs == init + [last];
    assert last in jobs && forall job | job in init :: job in jobs;
  }

  lemma LastLanded(jobs: seq<Job>, landed: set<string>)
    requires jobs != [] && DistinctRooms(jobs)
    ensures var init, last := jobs[..|jobs| - 1], jobs[|jobs| - 1];
            && last.roomId !in GainedByCrash(init, landed)
            && GainedByCrash(jobs, landed)
               == GainedByCrash(init, landed)[last.roomId := if last.hash in landed then Completed else Failed]
  {
    var init, last := jobs[..|jobs| - 1], jobs[|jobs| - 1];
    LastJob(jobs);
    LastLandedId(jobs, landed);
    var ids, initIds := LandedIds(jobs, landed), LandedIds(init, landed);
    assert initIds <= RoomsOf(init);
    var after := GainedByCrash(init, landed)[last.roomId := if last.hash in landed then Completed else Failed];
    assert GainedByCrash(jobs, landed).Keys == after.Keys;
    assert forall r | r in RoomsOf(init) :: r in ids <==> r in initIds;
    assert last.roomId in ids <==> last.hash in landed;
  }

  lemma {:induction false} LandCommitsEffect(s: Server, jobs: seq<Job>, landed: set<string>)
    requires DistinctRooms(jobs)
    ensures var t := LandCommits(s, jobs, landed);
            && RoomsLanded(s.db, t.db, LandedIds(jobs, landed))
            && Recorded(s, t, GainedByCrash(jobs, landed))
            && t == s.(db := t.db, history := t.history)
  {
    if jobs == [] {
    } else {
      var init, last := jobs[..|jobs| - 1], jobs[|jobs| - 1];
      LastJob(jobs);
      LandCommitsEffect(s, init, landed);
      LastLanded(jobs, landed);
      LastLandedId(jobs, landed);
      var t := LandCommits(s, init, landed);
      RoomsLandedStep(s.db, t.db, LandedIds(init, landed), last.roomId);
      if last.hash in landed {
        RecordedStep(s, t.(db := FinalizeRun(t.db, last.roomId)), GainedByCrash(init, landed), last.roomId, Completed);
      } else {
        RecordedStep(s, t, GainedByCrash(init, landed), last.roomId, Failed);
      }
    }
  }

  lemma RecordedBoth(s: Server, t: Server, u: Server, first: map<nat, Status>, second: map<nat, Status>)
    requires Recorded(s, t, first) && Recorded(t, u, second) && first.Keys !! second.Keys
    ensures Recorded(s, u, first + second)
  {
    forall r: nat
      ensures HistoryOf(u, r) == HistoryOf(s, r) + if r in first + second then [(first + second)[r]] else []
    {
      assert r !in first || r !in second;
    }
  }

  ghost function Gained(s: Server, landed: set<string>): map<nat, Status> {
    GainedByCrash(s.running, landed) + GainedAll(s.fifo, Failed)
  }

  /** A crash ends every run, waiting or working, exactly once. */
  lemma CrashEffect(s: Server, landed: set<string>, parallelism: nat)
    requires parallelism >= 1 && Inv(s, parallelism)
    ensures var t := Crash(s, landed);
            && RoomsLanded(s.db, t.db, LandedIds(s.running, landed)) && t.accepted == s.accepted
            && t.fifo == [] && t.running == [] && t.children == {} && t.pendingCancel == {}
            && Recorded(s, t, Gained(s, landed))
  {
    DistinctHashesDistinctRooms(s, s.running);
    DistinctHashesDistinctRooms(s, s.fifo);
    DisjointRooms(s, parallelism);
    LandCommitsEffect(s, s.running, landed);
    var s1 := LandCommits(s, s.running, landed);
    RecordAllEffect(s1, s.fifo, Failed);
    RecordedBoth(s, s1, RecordAll(s1, s.fifo, Failed), GainedByCrash(s.running, landed), GainedAll(s.fifo, Failed));
  }

  lemma DisjointRooms(s: Server, parallelism: nat)
    requires parallelism >= 1 && LinksOk(s) && ListsOk(s, parallelism)
    ensures RoomsOf(s.running) !! RoomsOf(s.fifo)
  {
    forall a, b | a in s.running && b in s.fifo
      ensures a.roomId != b.roomId
    {
      assert a.hash in Hashes(s.running) && b.hash in Hashes(s.fifo);
      assert Placed(s.db, a) && Placed(s.db, b);
    }
  }

  lemma OwnRooms(s: Server, h: string, landed: set<string>, parallelism: nat)
    requires parallelism >= 1 && LinksOk(s) && ListsOk(s, parallelism)
    requires h in s.db.configs && s.db.configs[h].roomId.Some?
    ensures var r := s.db.configs[h].roomId.value;
            && (r in RoomsOf(s.running) <==> h in Hashes(s.running))
            && (r in RoomsOf(s.fifo) <==> h in Hashes(s.fifo))
            && (r in LandedIds(s.running, landed) <==> h in Hashes(s.running) && h in landed)
  {
    var r := s.db.configs[h].roomId.value;
    assert forall job | job in s.running || job in s.fifo :: Placed(s.db, job);
    assert forall job | job in s.running || job in s.fifo :: job.roomId == r <==> job.hash == h;
    if h in Hashes(s.running) {
      var job :| job in s.running && job.hash == h;
      assert job.roomId == r;
    }
    if h in Hashes(s.fifo) {
      var job :| job in s.fifo && job.hash == h;
      assert job.roomId == r;
    }
  }

  /** What happened to one room between the last state and the next process's first. */
  lemma RestartedRoom(s: Server, db: Db, landed: set<string>, r: nat)
    requires RoomsLanded(s.db, Crash(s, landed).db, LandedIds(s.running, landed)) && Swept(Crash(s, landed).db, db)
    requires r in LinkedRoomIds(Crash(s, landed).db)
    ensures r in s.db.rooms && r in db.rooms
    ensures db.rooms[r] == SweptRoom(if r in LandedIds(s.running, landed) then LandedRoom(s.db.rooms[r]) else s.db.rooms[r])
  {
  }

  /** A hash after crash and sweep: its run, if it had one, is over, and its room says how. */
  lemma RestartedHashOk(s: Server, db: Db, landed: set<string>, h: string, parallelism: nat)
    requires parallelism >= 1 && Inv(s, parallelism)
    requires Swept(Crash(s, landed).db, db)
    ensures HashOk(Crash(s, landed).(db := db), h)
  {
    CrashEffect(s, landed, parallelism);
    if h in s.db.configs && s.db.configs[h].roomId.Some? {
      var r := s.db.configs[h].roomId.value;
      OwnRooms(s, h, landed, parallelism);
      assert HashOk(s, h);
      assert r in LinkedRoomIds(Crash(s, landed).db);
      RestartedRoom(s, db, landed, r);
      RunOver(s.db.rooms[r], HistoryOf(s, r), h in Hashes(s.fifo), h in Hashes(s.running), h in landed);
      RestartedHistory(s, db, landed, h, parallelism);
    }
  }

  /** The outcome a run gains when the process dies under it. */
  ghost function CrashOutcome(waiting: bool, working: bool, landed: bool): seq<Status> {
    if working then [if landed then Completed else Failed] else if waiting then [Failed] else []
  }

  lemma RestartedHistory(s: Server, db: Db, landed: set<string>, h: string, parallelism: nat)
    requires parallelism >= 1 && Inv(s, parallelism)
    requires h in s.db.configs && s.db.configs[h].roomId.Some?
    ensures var r := s.db.configs[h].roomId.value;
            HistoryOf(Crash(s, landed).(db := db), r)
            == HistoryOf(s, r) + CrashOutcome(h in Hashes(s.fifo), h in Hashes(s.running), h in landed)
  {
    var r := s.db.configs[h].roomId.value;
    CrashEffect(s, landed, parallelism);
    OwnRooms(s, h, landed, parallelism);
    DisjointRooms(s, parallelism);
    var c := Crash(s, landed);
    assert HistoryOf(c.(db := db), r) == HistoryOf(c, r);
    assert HistoryOf(c, r) == HistoryOf(s, r) + if r in Gained(s, landed) then [Gained(s, landed)[r]] else [];
  }

  lemma RunOver(room: Room, history: seq<Status>, waiting: bool, working: bool, landed: bool)
    requires room.status in {None, Some(Idle), Some(Queued), Some(Running)}
    requires (room.status == Some(Queued) <==> waiting) && (room.status == Some(Running) <==> working)
    requires room.lastOutcome == LastOf(history)
    ensures var after := SweptRoom(if working && landed then LandedRoom(room) else room);
            && after.status in {None, Some(Idle)}
            && after.lastOutcome == LastOf(history + CrashOutcome(waiting, working, landed))
  {
    assert !waiting && !working ==> history + [] == history;
  }

  lemma GainedBound(s: Server, landed: set<string>, parallelism: nat)
    requires parallelism >= 1 && LinksOk(s) && ListsOk(s, parallelism)
    ensures forall r | r in Gained(s, landed) :: r < s.db.nextRoomId
  {
    forall r | r in Gained(s, landed)
      ensures r < s.db.nextRoomId
    {
      var job :| (job in s.running || job in s.fifo) && job.roomId == r;
      assert Placed(s.db, job);
    }
  }

  lemma RestartedLinks(s: Server, db: Db, landed: set<string>, parallelism: nat)
    requires parallelism >= 1 && Inv(s, parallelism) && Swept(Crash(s, landed).db, db)
    ensures LinksOk(Crash(s, landed).(db := db))
  {
    CrashEffect(s, landed, parallelism);
    GainedBound(s, landed, parallelism);
    var c := Crash(s, landed);
    assert forall h | h in db.configs && db.configs[h].roomId.Some? ::
      db.configs[h].roomId.value in LinkedRoomIds(c.db);
  }

  /** The history tells what the rooms will say once swept, and no run is live. */
  ghost predicate HistoryFits(s: Server) {
    forall h | LinkedRoom(s.db, h).Some? ::
      var r := LinkedRoom(s.db, h).value;
      SweptRoom(s.db.rooms[r]).lastOutcome == LastOf(HistoryOf(s, r)) && AcceptedOf(s, r) == |HistoryOf(s, r)|
  }

  lemma SweptRests(room: Room)
    ensures SweptRoom(room).status in {None, Some(Idle)}
  {
    if room.status.Some? {
      assert IsActive(room.status) || IsTerminal(room.status) || room.status.value.Idle?;
    }
  }

  /** Whatever statuses a process finds: swept, tables whose history fits are consistent and at rest. */
  lemma SweptIsConsistent(s: Server, rows: seq<LinkedRow>, parallelism: nat)
    requires parallelism >= 1 && LinksOk(s) && HistoryFits(s)
    requires s.fifo == [] && s.running == [] && s.children == {} && s.pendingCancel == {}
    requires ListsLinkedRooms(DeleteOrphans(s.db), rows)
    ensures Inv(s.(db := Sweep(s.db, rows)), parallelism) && AllSettled(Sweep(s.db, rows))
    ensures Sweep(s.db, rows).configs == s.db.configs
  {
    hide RoomDb.Sweep;
    var t := s.(db := Sweep(s.db, rows));
    SweepEffect(s.db, rows);
    forall h
      ensures HashOk(t, h)
    {
      if h in t.db.configs && t.db.configs[h].roomId.Some? {
        assert LinkedRoom(s.db, h) == t.db.configs[h].roomId;
        var r := t.db.configs[h].roomId.value;
        assert t.db.rooms[r] == SweptRoom(s.db.rooms[r]) && HistoryOf(t, r) == HistoryOf(s, r);
        SweptRests(s.db.rooms[r]);
      }
    }
    assert forall h | h in t.db.configs && t.db.configs[h].roomId.Some? ::
      t.db.configs[h].roomId.value in LinkedRoomIds(s.db);
    forall r | r in t.db.rooms
      ensures !IsActive(t.db.rooms[r].status) && !IsTerminal(t.db.rooms[r].status)
    {
      assert t.db.rooms[r] == SweptRoom(s.db.rooms[r]);
    }
  }

  /** Whatever commits landed before the crash, the next process starts from a consistent state. */
  lemma RestartKeeps(s: Server, landed: set<string>, rows: seq<LinkedRow>, parallelism: nat)
    requires parallelism >= 1 && Inv(s, parallelism) && UsersOk(s.db)
    requires ListsLinkedRooms(DeleteOrphans(Crash(s, landed).db), rows)
    ensures var t := Restart(s, landed, rows);
            && Inv(t, parallelism) && UsersOk(t.db) && t.fifo == [] && t.running == []
            && AllSettled(t.db)
  {
    hide LandCommits, RecordAll, RoomDb.Sweep;
    var c, t := Crash(s, landed), Restart(s, landed, rows);
    CrashEffect(s, landed, parallelism);
    SweepEffect(c.db, rows);
    forall h
      ensures HashOk(t, h)
    {
      RestartedHashOk(s, t.db, landed, h, parallelism);
    }
    RestartedLinks(s, t.db, landed, parallelism);
    forall r | r in t.db.rooms
      ensures !IsActive(t.db.rooms[r].status) && !IsTerminal(t.db.rooms[r].status)
    {
      assert t.db.rooms[r] == SweptRoom(c.db.rooms[r]);
    }
  }
}
