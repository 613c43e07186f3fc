/**
 * The queue's operations as steps of the timed model: the jobs that wait and the slots that are
 * taken are the same in both, so what holds of the timed runs is said of the queue.
 */
module QueueTimed {
  import opened Wrappers
  import RoomDb
  import opened QueueSpec
  import opened Admission
  import opened QueueTickets

  /** The same hashes wait in the same order, and as many slots are taken as jobs run. */
  ghost predicate Matches(s: Server, a: State, parallelism: nat) {
    && |a.slots| == |a.starts| == parallelism && Taken(a.slots) == |s.running|
    && |a.fifo| == |s.fifo| && forall k :: 0 <= k < |s.fifo| ==> a.fifo[k].hash == s.fifo[k].hash
  }

  ghost predicate Leads(a: State, events: seq<Event>, b: State, maxRun: nat)
    decreases |events|
  {
    if events == [] then b == a
    else Enabled(a, events[0], maxRun) && Leads(Next(a, events[0], maxRun), events[1..], b, maxRun)
  }

  lemma Before(a: State, e: Event, events: seq<Event>, b: State, maxRun: nat)
    requires Enabled(a, e, maxRun) && Leads(Next(a, e, maxRun), events, b, maxRun)
    ensures Leads(a, [e] + events, b, maxRun)
  {
    hide Enabled, Next;
    assert ([e] + events)[1..] == events;
  }

  lemma FreeSlot(slots: seq<Option<Holding>>) returns (i: nat)
    requires Taken(slots) < |slots|
    ensures i < |slots| && slots[i].None?
  {
    FreeIffBelow(slots);
    i :| 0 <= i < |slots| && slots[i].None?;
  }

  lemma {:induction false} TakenSlot(slots: seq<Option<Holding>>) returns (i: nat)
    requires Taken(slots) > 0
    ensures i < |slots| && slots[i].Some?
  {
    if slots[|slots| - 1].Some? {
      i := |slots| - 1;
    } else {
      i := TakenSlot(slots[..|slots| - 1]);
    }
  }

  lemma StartFollows(s: Server, a: State, parallelism: nat, maxRun: nat) returns (i: nat)
    requires Matches(s, a, parallelism) && |s.running| < parallelism && s.fifo != []
    ensures Enabled(a, DrainOne(i), maxRun) && Matches(StartNext(s), Next(a, DrainOne(i), maxRun), parallelism)
    ensures Next(a, DrainOne(i), maxRun).log == a.log + [Started(a.fifo[0], a.now)]
    ensures Next(a, DrainOne(i), maxRun).fifo == a.fifo[1..] && Next(a, DrainOne(i), maxRun).now == a.now
  {
    i := FreeSlot(a.slots);
    TakenAfterUpdate(a.slots, i, Some(Holding(a.fifo[0].ticket, a.now)));
  }

  ghost predicate OnlyDrains(events: seq<Event>) {
    forall e | e in events :: e.DrainOne?
  }

  /** Waiting jobs start, from the front of the FIFO, at one moment. */
  ghost predicate StartedNow(a: State, b: State, n: nat) {
    && n <= |a.fifo| && b.fifo == a.fifo[n..] && b.now == a.now
    && |b.log| == |a.log| + n && b.log[..|a.log|] == a.log
    && forall k :: 0 <= k < n ==> b.log[|a.log| + k] == Started(a.fifo[k], a.now)
  }

  lemma StartedOneMore(a: State, c: State, b: State, n: nat)
    requires a.fifo != [] && c.fifo == a.fifo[1..] && c.now == a.now && c.log == a.log + [Started(a.fifo[0], a.now)]
    requires StartedNow(c, b, n)
    ensures StartedNow(a, b, n + 1)
  {
    assert b.log[..|a.log|] == b.log[..|c.log|][..|a.log|];
    forall k | 0 <= k < n + 1
      ensures b.log[|a.log| + k] == Started(a.fifo[k], a.now)
    {
      if k == 0 {
        assert b.log[|a.log|] == b.log[..|c.log|][|a.log|];
      } else {
        assert b.log[|c.log| + (k - 1)] == Started(c.fifo[k - 1], c.now);
      }
    }
  }

  /** Draining is a row of drain steps, as many as there are slots for, after which no drain is due. */
  lemma {:induction false} DrainFollows(s: Server, a: State, parallelism: nat, maxRun: nat) returns (events: seq<Event>, b: State)
    requires Matches(s, a, parallelism)
    ensures Leads(a, events, b, maxRun) && OnlyDrains(events)
    ensures Matches(Drain(s, parallelism), b, parallelism) && StartedNow(a, b, |events|) && !DrainDue(b)
    decreases |s.fifo|
  {
    hide Enabled, Next, Taken, DrainDue, StartNext;
    if |s.running| < parallelism && s.fifo != [] {
      var i := StartFollows(s, a, parallelism, maxRun);
      var c := Next(a, DrainOne(i), maxRun);
      var rest: seq<Event>;
      rest, b := DrainFollows(StartNext(s), c, parallelism, maxRun);
      Before(a, DrainOne(i), rest, b, maxRun);
      StartedOneMore(a, c, b, |rest|);
      events := [DrainOne(i)] + rest;
    } else {
      events, b := [], a;
      NoDrainDue(s, a, parallelism);
    }
  }

  lemma NoDrainDue(s: Server, a: State, parallelism: nat)
    requires Matches(s, a, parallelism) && (|s.running| >= parallelism || s.fifo == [])
    ensures !DrainDue(a)
  {
    FreeIffBelow(a.slots);
  }

  /** An accepted enqueue is a push behind all that wait, with the position it reports, and then a draining. */
  lemma EnqueueFollows(s: Server, a: State, limits: Limits, avg: Option<int>, hash: string, user: string, source: Source,
                       maxRun: nat) returns (events: seq<Event>, b: State)
    requires limits.parallelism >= 1 && Matches(s, a, limits.parallelism)
    requires Enqueue(s, limits, avg, hash, user, source).1.Accepted?
    ensures Leads(a, [Push(hash, |a.fifo|)] + events, b, maxRun) && OnlyDrains(events)
    ensures Matches(Enqueue(s, limits, avg, hash, user, source).0, b, limits.parallelism) && !DrainDue(b)
    ensures Next(a, Push(hash, |a.fifo|), maxRun).fifo[|a.fifo|].position
         == Enqueue(s, limits, avg, hash, user, source).1.queuePosition
  {
    hide Leads, Drain, RoomDb.TryQueueRoom, OnlyDrains, DrainDue;
    var (db, outcome) := RoomDb.TryQueueRoom(s.db, hash, user);
    var pushed := PushJob(s, limits, avg, hash, user, source, db, outcome.roomId);
    var c := Next(a, Push(hash, |a.fifo|), maxRun);
    assert Matches(pushed, c, limits.parallelism);
    events, b := DrainFollows(pushed, c, limits.parallelism, maxRun);
    Before(a, Push(hash, |a.fifo|), events, b, maxRun);
  }

  /** The end of a worker frees a slot, and then there is a draining. */
  lemma ExitFollows(s: Server, a: State, parallelism: nat, i: nat, exit: Exit, maxRun: nat)
      returns (slot: nat, events: seq<Event>, b: State)
    requires Matches(s, a, parallelism) && i < |s.running|
    ensures Leads(a, [Finish(slot)] + events, b, maxRun) && OnlyDrains(events)
    ensures Matches(WorkerExit(s, parallelism, i, exit), b, parallelism) && !DrainDue(b)
  {
    hide Leads, Drain, OnlyDrains, DrainDue;
    slot := TakenSlot(a.slots);
    TakenAfterUpdate(a.slots, slot, None);
    var freed := Freed(s, i, exit);
    var c := Next(a, Finish(slot), maxRun);
    assert Matches(freed, c, parallelism);
    events, b := DrainFollows(freed, c, parallelism, maxRun);
    Before(a, Finish(slot), events, b, maxRun);
  }

  /** The state in which a worker's end drains. */
  lemma Freed(s: Server, i: nat, exit: Exit) returns (t: Server)
    requires i < |s.running|
    ensures forall parallelism :: WorkerExit(s, parallelism, i, exit) == Drain(t, parallelism)
    ensures t.fifo == s.fifo && |t.running| == |s.running| - 1
  {
    hide Drain;
    var job := s.running[i];
    var s1 := WorkerCommit(s, job, exit.committed);
    var s2 := s1.(children := s1.children - {job.hash});
    var s3 := HandleReport(s2, job, exit.report);
    var s4 := s3.(running := s3.running[..i] + s3.running[i + 1..]);
    var s5 := Record(s4, job.roomId, Verdict(exit, job.hash in s.pendingCancel));
    t := s5.(db := RoomDb.MaybeResetTerminal(s5.db, job.hash));
  }

  lemma {:induction false} KeepsTheOthers(jobs: seq<Job>, fifo: seq<Waiting>, hash: string)
    requires |fifo| == |jobs| && forall k :: 0 <= k < |jobs| ==> fifo[k].hash == jobs[k].hash
    ensures var kept, rest := Keep(fifo, hash), JobsExcept(jobs, hash);
            |kept| == |rest| && forall k :: 0 <= k < |rest| ==> kept[k].hash == rest[k].hash
  {
    if jobs == [] {
    } else {
      var n := |jobs| - 1;
      KeepsTheOthers(jobs[..n], fifo[..n], hash);
      KeepLast(fifo, hash);
    }
  }

  lemma {:induction false} KeepLast(fifo: seq<Waiting>, hash: string)
    requires fifo != []
    ensures Keep(fifo, hash)
         == Keep(fifo[..|fifo| - 1], hash) + if fifo[|fifo| - 1].hash == hash then [] else [fifo[|fifo| - 1]]
  {
    if |fifo| > 1 {
      KeepLast(fifo[1..], hash);
      assert fifo[1..][..|fifo| - 2] == fifo[..|fifo| - 1][1..];
    }
  }

  /** A purge takes the same jobs off in both. */
  lemma PurgeFollows(s: Server, a: State, parallelism: nat, hash: string, maxRun: nat)
    requires Matches(s, a, parallelism)
    ensures Enabled(a, PurgeHash(hash), maxRun)
    ensures Matches(Purge(s, hash), Next(a, PurgeHash(hash), maxRun), parallelism)
  {
    KeepsTheOthers(s.fifo, a.fifo, hash);
  }
}
