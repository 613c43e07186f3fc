/**
 * What every step keeps: a hash's room and its jobs agree, each room's accepted runs are its
 * finished runs plus the live one, and `last_outcome` is the outcome of the last finished run.
 */
module RoomInvariant {
  import opened Arithmetic
  import opened Wrappers
  import opened RoomDb
  import opened QueueSpec

  ghost function Hashes(jobs: seq<Job>): set<string> {
    set job | job in jobs :: job.hash
  }

  ghost function LastOf(outcomes: seq<Status>): Option<Status> {
    if outcomes == [] then None else Some(outcomes[|outcomes| - 1])
  }

  /** A config exists only while some user is linked to it. */
  ghost predicate UsersOk(db: Db) {
    forall h | h in db.configs :: db.configs[h].users != {}
  }

  /** Every link has its own room, and room ids only grow. */
  ghost predicate LinksOk(s: Server) {
    && (forall h | h in s.db.configs && s.db.configs[h].roomId.Some? :: s.db.configs[h].roomId.value in s.db.rooms)
    && (forall g, h | g in s.db.configs && h in s.db.configs && g != h && s.db.configs[g].roomId.Some? ::
          s.db.configs[g].roomId != s.db.configs[h].roomId)
    && (forall r | r in s.db.rooms :: r < s.db.nextRoomId)
    && (forall r | r in s.history || r in s.accepted :: r < s.db.nextRoomId)
  }

  ghost predicate DistinctHashes(jobs: seq<Job>) {
    forall i, j :: 0 <= i < j < |jobs| ==> jobs[i].hash != jobs[j].hash
  }

  ghost predicate Placed(db: Db, job: Job) {
    job.hash in db.configs && db.configs[job.hash].roomId == Some(job.roomId)
  }

  /** Recorded positions and waits bound the true ones from above. */
  ghost predicate BoundsOk(fifo: seq<Job>, parallelism: nat)
    requires parallelism >= 1
  {
    forall i :: 0 <= i < |fifo| ==>
      && i + 1 <= fifo[i].queuePosition
      && (fifo[i].avgMs.Some? <==> fifo[i].estimatedWaitMs.Some?)
      && (fifo[i].avgMs.Some? ==>
            EstimateWaitMs(i + 1, fifo[i].avgMs.value, parallelism) <= fifo[i].estimatedWaitMs.value)
  }

  ghost predicate ListsOk(s: Server, parallelism: nat)
    requires parallelism >= 1
  {
    && DistinctHashes(s.fifo) && DistinctHashes(s.running) && Hashes(s.fifo) !! Hashes(s.running)
    && (forall job | job in s.fifo :: Placed(s.db, job))
    && (forall job | job in s.running :: Placed(s.db, job))
    && |s.running| <= parallelism
    && BoundsOk(s.fifo, parallelism)
    && s.children == Hashes(s.running)
    && s.pendingCancel <= s.children
  }

  /** A hash with a room: its status, its jobs and its history tell the same story. */
  ghost predicate HashOk(s: Server, h: string) {
    h in s.db.configs && s.db.configs[h].roomId.Some? && s.db.configs[h].roomId.value in s.db.rooms ==>
      var r := s.db.configs[h].roomId.value;
      var room := s.db.rooms[r];
      var waiting := h in Hashes(s.fifo);
      var working := h in Hashes(s.running);
      && room.status in {None, Some(Idle), Some(Queued), Some(Running)}
      && (room.status == Some(Queued) <==> waiting)
      && (room.status == Some(Running) <==> working)
      && room.lastOutcome == LastOf(HistoryOf(s, r))
      && AcceptedOf(s, r) == |HistoryOf(s, r)| + if waiting || working then 1 else 0
  }

  ghost predicate Inv(s: Server, parallelism: nat)
    requires parallelism >= 1
  {
    LinksOk(s) && ListsOk(s, parallelism) && forall h :: HashOk(s, h)
  }

  /** No job waits while a slot is free. */
  ghost predicate Settled(s: Server, parallelism: nat) {
    s.fifo != [] ==> |s.running| >= parallelism
  }

  // Small facts about job lists

  lemma HashesOfAppend(jobs: seq<Job>, job: Job)
    ensures Hashes(jobs + [job]) == Hashes(jobs) + {job.hash}
  {
    assert job in jobs + [job];
  }

  lemma HashesOfRest(jobs: seq<Job>)
    requires jobs != [] && DistinctHashes(jobs)
    ensures Hashes(jobs[1..]) == Hashes(jobs) - {jobs[0].hash}
    ensures jobs[0].hash in Hashes(jobs)
  {
    assert jobs == [jobs[0]] + jobs[1..];
    assert jobs[0] in jobs;
  }

  lemma HashesOfRemoval(jobs: seq<Job>, i: nat)
    requires i < |jobs| && DistinctHashes(jobs)
    ensures Hashes(jobs[..i] + jobs[i + 1..]) == Hashes(jobs) - {jobs[i].hash}
    ensures DistinctHashes(jobs[..i] + jobs[i + 1..])
    ensures jobs[i].hash in Hashes(jobs)
  {
    var rest := jobs[..i] + jobs[i + 1..];
    assert jobs == jobs[..i] + [jobs[i]] + jobs[i + 1..];
    assert forall k :: 0 <= k < |rest| ==> rest[k] == if k < i then jobs[k] else jobs[k + 1];
    forall h | h in Hashes(rest)
      ensures h in Hashes(jobs) - {jobs[i].hash}
    {
      var k :| 0 <= k < |rest| && rest[k].hash == h;
      assert rest[k] == jobs[if k < i then k else k + 1];
    }
  }

  ghost predicate FoundFrom(job: Job, jobs: seq<Job>, i: nat) {
    exists k :: i <= k < |jobs| && jobs[k] == job
  }

  lemma {:induction false} KeptFrom(jobs: seq<Job>, h: string)
    ensures forall i :: 0 <= i < |JobsExcept(jobs, h)| ==> FoundFrom(JobsExcept(jobs, h)[i], jobs, i)
  {
    if jobs == [] {
    } else {
      var init := jobs[..|jobs| - 1];
      var kept, keptInit := JobsExcept(jobs, h), JobsExcept(init, h);
      KeptFrom(init, h);
      KeptNoLonger(init, h);
      forall i | 0 <= i < |kept|
        ensures FoundFrom(kept[i], jobs, i)
      {
        if i < |keptInit| {
          assert FoundFrom(keptInit[i], init, i);
          var k :| i <= k < |init| && init[k] == keptInit[i];
          assert jobs[k] == kept[i];
        } else {
          assert jobs[|jobs| - 1] == kept[i];
        }
      }
    }
  }

  lemma {:induction false} KeptHashes(jobs: seq<Job>, h: string)
    ensures Hashes(JobsExcept(jobs, h)) == Hashes(jobs) - {h}
  {
    if jobs == [] {
    } else {
      var init, last := jobs[..|jobs| - 1], jobs[|jobs| - 1];
      KeptHashes(init, h);
      assert jobs == init + [last];
      HashesOfAppend(init, last);
      HashesOfAppend(JobsExcept(init, h), last);
    }
  }

  lemma {:induction false} KeptDistinct(jobs: seq<Job>, h: string)
    requires DistinctHashes(jobs)
    ensures DistinctHashes(JobsExcept(jobs, h))
  {
    if jobs == [] {
    } else {
      var init, last := jobs[..|jobs| - 1], jobs[|jobs| - 1];
      var keptInit := JobsExcept(init, h);
      KeptDistinct(init, h);
      KeptHashes(init, h);
      assert forall i :: 0 <= i < |init| ==> init[i].hash != last.hash;
      assert last.hash !in Hashes(init);
      forall i | 0 <= i < |keptInit|
        ensures keptInit[i].hash != last.hash
      {
        assert keptInit[i] in keptInit;
        assert keptInit[i].hash in Hashes(keptInit);
      }
    }
  }

  lemma {:induction false} KeptNoLonger(jobs: seq<Job>, h: string)
    ensures |JobsExcept(jobs, h)| <= |jobs|
  {
    if jobs == [] {
    } else {
      KeptNoLonger(jobs[..|jobs| - 1], h);
    }
  }

  /** With distinct hashes, at most one job is taken out, and it is the hash's own. */
  lemma {:induction false} TakenJobs(jobs: seq<Job>, h: string)
    requires DistinctHashes(jobs)
    ensures |JobsOf(jobs, h)| <= 1
    ensures JobsOf(jobs, h) != [] <==> h in Hashes(jobs)
    ensures forall job | job in JobsOf(jobs, h) :: job in jobs && job.hash == h
  {
    if jobs == [] {
    } else {
      var init, last := jobs[..|jobs| - 1], jobs[|jobs| - 1];
      TakenJobs(init, h);
      assert jobs == init + [last];
      HashesOfAppend(init, last);
      if last.hash == h {
        assert forall i :: 0 <= i < |init| ==> init[i].hash != h;
      }
    }
  }

  lemma RenumberKeepsHashes(jobs: seq<Job>)
    ensures Hashes(Renumber(jobs)) == Hashes(jobs)
    ensures DistinctHashes(jobs) ==> DistinctHashes(Renumber(jobs))
  {
    forall h
      ensures h in Hashes(Renumber(jobs)) <==> h in Hashes(jobs)
    {
      if h in Hashes(jobs) {
        var i :| 0 <= i < |jobs| && jobs[i].hash == h;
        assert Renumber(jobs)[i] in Renumber(jobs);
      }
      if h in Hashes(Renumber(jobs)) {
        var i :| 0 <= i < |jobs| && Renumber(jobs)[i].hash == h;
        assert jobs[i] in jobs;
      }
    }
  }

  lemma CeilDivMonotone(a: nat, b: nat, k: nat)
    requires k >= 1 && a <= b
    ensures CeilDiv(a, k) <= CeilDiv(b, k)
  {
    MulLess(CeilDiv(a, k) - 1, CeilDiv(b, k), k);
  }

  lemma WaitMonotone(p: nat, q: nat, avg: nat, k: nat)
    requires k >= 1 && 1 <= p <= q
    ensures EstimateWaitMs(p, avg, k) <= EstimateWaitMs(q, avg, k)
  {
    CeilDivMonotone(p - 1, q - 1, k);
    assert (CeilDiv(q - 1, k) - CeilDiv(p - 1, k)) * avg >= 0;
  }

  // Changes confined to one hash

  /** Away from `h` and its room nothing that `HashOk` looks at differs. */
  ghost predicate SameElsewhere(s: Server, t: Server, h: string) {
    && t.db.configs == s.db.configs
    && t.db.nextRoomId == s.db.nextRoomId
    && t.db.rooms.Keys == s.db.rooms.Keys
    && h in s.db.configs && s.db.configs[h].roomId.Some?
    && (forall r | r in s.db.rooms && Some(r) != s.db.configs[h].roomId ::
          t.db.rooms[r] == s.db.rooms[r] && HistoryOf(t, r) == HistoryOf(s, r) && AcceptedOf(t, r) == AcceptedOf(s, r))
    && (forall g | g != h ::
          (g in Hashes(t.fifo) <==> g in Hashes(s.fifo)) && (g in Hashes(t.running) <==> g in Hashes(s.running)))
    && (forall r | r in t.history || r in t.accepted :: r < t.db.nextRoomId)
  }

  /** A change confined to one hash keeps the invariant if that hash and the lists are right again. */
  lemma LocalChange(s: Server, t: Server, h: string, parallelism: nat)
    requires parallelism >= 1 && Inv(s, parallelism)
    requires SameElsewhere(s, t, h)
    requires ListsOk(t, parallelism) && HashOk(t, h)
    ensures Inv(t, parallelism)
  {
    assert LinksOk(t);
    forall g
      ensures HashOk(t, g)
    {
      assert HashOk(s, g);
    }
  }

  // Starting jobs

  lemma StartNextKeeps(s: Server, parallelism: nat)
    requires parallelism >= 1 && Inv(s, parallelism) && s.fifo != [] && |s.running| < parallelism
    ensures Inv(StartNext(s), parallelism)
    ensures s.fifo[0].hash !in StartNext(s).pendingCancel
  {
    var t, job := StartNext(s), s.fifo[0];
    assert job in s.fifo && HashOk(s, job.hash);
    HashesOfRest(s.fifo);
    HashesOfAppend(s.running, job);
    StartedLists(s, parallelism);
    LocalChange(s, t, job.hash, parallelism);
  }

  lemma StartedLists(s: Server, parallelism: nat)
    requires parallelism >= 1 && LinksOk(s) && ListsOk(s, parallelism) && s.fifo != [] && |s.running| < parallelism
    ensures ListsOk(StartNext(s), parallelism)
  {
    var t, job := StartNext(s), s.fifo[0];
    HashesOfRest(s.fifo);
    HashesOfAppend(s.running, job);
    assert s.fifo == [job] + t.fifo;
    assert forall x | x in t.fifo || x in t.running :: Placed(s.db, x) && t.db.configs == s.db.configs;
    forall i | 0 <= i < |s.running|
      ensures s.running[i].hash != job.hash
    {
      assert s.running[i] in s.running;
    }
    BoundsOfRest(s.fifo, parallelism);
  }

  lemma BoundsOfRest(fifo: seq<Job>, parallelism: nat)
    requires parallelism >= 1 && fifo != [] && BoundsOk(fifo, parallelism)
    ensures BoundsOk(fifo[1..], parallelism)
  {
    forall i | 0 <= i < |fifo[1..]| && fifo[1..][i].avgMs.Some?
      ensures EstimateWaitMs(i + 1, fifo[1..][i].avgMs.value, parallelism) <= fifo[1..][i].estimatedWaitMs.value
    {
      assert fifo[1..][i] == fifo[i + 1];
      WaitMonotone(i + 1, i + 2, fifo[i + 1].avgMs.value, parallelism);
    }
  }

  /** Draining keeps the invariant and leaves no job waiting beside a free slot. */
  lemma {:induction false} DrainKeeps(s: Server, parallelism: nat)
    requires parallelism >= 1 && Inv(s, parallelism)
    ensures Inv(Drain(s, parallelism), parallelism) && Settled(Drain(s, parallelism), parallelism)
    ensures Drain(s, parallelism).history == s.history && Drain(s, parallelism).accepted == s.accepted
    ensures Drain(s, parallelism).db.configs == s.db.configs
    decreases |s.fifo|
  {
    if |s.running| < parallelism && s.fifo != [] {
      StartNextKeeps(s, parallelism);
      DrainKeeps(StartNext(s), parallelism);
    }
  }

  /** Recording outcomes changes the history and nothing else. */
  lemma {:induction false} RecordKeepsLists(s: Server, jobs: seq<Job>, outcome: Status)
    ensures RecordAll(s, jobs, outcome) == s.(history := RecordAll(s, jobs, outcome).history)
  {
    if jobs == [] {
    } else {
      RecordKeepsLists(s, jobs[..|jobs| - 1], outcome);
    }
  }
}
