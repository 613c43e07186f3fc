/**
 * Requests that run from their first await to their last with nothing in between: each does to the
 * rooms, the jobs and the FIFO what the operation as a whole is for. Whatever other jobs and
 * requests there are stay as they were.
 */
module HandoverAlone {
  import opened RoomDb
  import opened HandoverWindow

  /** The events, one after the other, take `s` to `u`. */
  ghost predicate Leads(s: State, events: seq<Event>, u: State, parallelism: nat)
    decreases |events|
  {
    if events == [] then u == s
    else Enabled(s, events[0], parallelism) && Leads(Next(s, events[0], parallelism), events[1..], u, parallelism)
  }

  ghost predicate Goes(s: State, e: Event, u: State, parallelism: nat) {
    Enabled(s, e, parallelism) && Next(s, e, parallelism) == u
  }

  lemma Done(s: State, parallelism: nat)
    ensures Leads(s, [], s, parallelism)
  {
  }

  lemma Before(s: State, e: Event, u: State, events: seq<Event>, v: State, parallelism: nat)
    requires Goes(s, e, u, parallelism) && Leads(u, events, v, parallelism)
    ensures Leads(s, [e] + events, v, parallelism)
  {
    hide Enabled, Next;
    assert ([e] + events)[1..] == events;
  }

  // States

  /** The state in which a config's room has another status. */
  function WithRoom(s: State, h: string, status: Status): State
    requires h in s.rooms
  {
    s.(rooms := s.rooms[h := Row(s.rooms[h].id, status)])
  }

  function WithJob(s: State, t: nat, job: Job): State {
    s.(jobs := s.jobs[t := job])
  }

  /** The job is the hash's only one, and the config's room is the job's. */
  ghost predicate OnlyJob(s: State, t: nat, h: string) {
    && h in s.rooms && t in s.jobs && s.jobs[t].hash == h && s.jobs[t].room == s.rooms[h].id
    && forall v | v in s.jobs && v != t :: s.jobs[v].hash != h
  }

  // Enqueue and start

  /** A new config gets a room of its own at rest; a known one keeps its room. */
  lemma LinkAlone(s: State, h: string, parallelism: nat)
    ensures Goes(s, Link(h), if h in s.rooms then s
                             else s.(rooms := s.rooms[h := Row(s.nextRoom, Idle)], nextRoom := s.nextRoom + 1), parallelism)
  {
  }

  /** An enqueue beside an active room changes nothing. */
  lemma RefusedAlone(s: State, h: string, parallelism: nat)
    requires h !in s.rooms || s.rooms[h].status in {Queued, Running, Fetching}
    ensures Goes(s, TryQueue(h), s, parallelism)
  {
  }

  /** What an enqueue leaves: the room queued and a job for it at the end of the FIFO. */
  function Enqueued(s: State, h: string): State
    requires h in s.rooms
  {
    WithJob(WithRoom(s, h, Queued), s.nextJob, Job(h, s.rooms[h].id, Waiting, false, false))
      .(nextJob := s.nextJob + 1, fifo := s.fifo + [s.nextJob])
  }

  lemma EnqueueSteps(s: State, h: string, parallelism: nat) returns (u: State)
    requires h in s.rooms && s.rooms[h].status in {Idle, Completed, Failed, Cancelled, Errored}
    ensures Goes(s, TryQueue(h), u, parallelism) && Goes(u, Push(s.nextJob), Enqueued(s, h), parallelism)
  {
    u := Next(s, TryQueue(h), parallelism);
    assert Next(u, Push(s.nextJob), parallelism).jobs == Enqueued(s, h).jobs;
  }

  lemma EnqueueAlone(s: State, h: string, parallelism: nat)
    requires h in s.rooms && s.rooms[h].status in {Idle, Completed, Failed, Cancelled, Errored}
    ensures Leads(s, [TryQueue(h), Push(s.nextJob)], Enqueued(s, h), parallelism)
  {
    hide Leads, Goes, Enqueued;
    var u := EnqueueSteps(s, h, parallelism);
    InTwo(s, TryQueue(h), u, Push(s.nextJob), Enqueued(s, h), parallelism);
  }

  lemma InTwo(s: State, d: Event, u: State, e: Event, v: State, parallelism: nat)
    requires Goes(s, d, u, parallelism) && Goes(u, e, v, parallelism)
    ensures Leads(s, [d, e], v, parallelism)
  {
    hide Leads, Goes;
    Done(v, parallelism);
    Before(u, e, v, [], v, parallelism);
    assert [e] + [] == [e];
    Before(s, d, u, [e], v, parallelism);
    assert [d] + [e] == [d, e];
  }

  lemma InThree(s: State, c: Event, r: State, d: Event, u: State, e: Event, v: State, parallelism: nat)
    requires Goes(s, c, r, parallelism) && Goes(r, d, u, parallelism) && Goes(u, e, v, parallelism)
    ensures Leads(s, [c, d, e], v, parallelism)
  {
    hide Leads, Goes;
    InTwo(r, d, u, e, v, parallelism);
    Before(s, c, r, [d, e], v, parallelism);
    assert [c] + [d, e] == [c, d, e];
  }

  lemma {:induction false} Chained(s: State, first: seq<Event>, u: State, second: seq<Event>, v: State, parallelism: nat)
    requires Leads(s, first, u, parallelism) && Leads(u, second, v, parallelism)
    ensures Leads(s, first + second, v, parallelism)
    decreases |first|
  {
    hide Enabled, Next;
    if first == [] {
      assert first + second == second;
    } else {
      Chained(Next(s, first[0], parallelism), first[1..], u, second, v, parallelism);
      assert (first + second)[1..] == first[1..] + second;
    }
  }

  /** What a start leaves: the room running, the slot and the child taken. */
  function Started(s: State, t: nat, h: string, rest: seq<nat>): State
    requires h in s.rooms
  {
    WithJob(WithRoom(s, h, Running), t, Job(h, s.rooms[h].id, Working, false, false))
      .(fifo := rest, runningCount := s.runningCount + 1, children := s.children + {h})
  }

  lemma ShiftAlone(s: State, t: nat, rest: seq<nat>, parallelism: nat)
    requires s.fifo == [t] + rest && s.runningCount < parallelism && t in s.jobs && s.jobs[t].stage == Waiting
    ensures Goes(s, Shift, WithJob(s, t, s.jobs[t].(stage := Starting)).(fifo := rest, runningCount := s.runningCount + 1),
                 parallelism)
  {
    assert s.fifo[1..] == rest;
  }

  lemma SpawnSteps(s: State, t: nat, h: string, parallelism: nat) returns (u: State)
    requires t in s.jobs && h in s.rooms && s.jobs[t] == Job(h, s.rooms[h].id, Starting, false, s.jobs[t].struck)
    ensures Goes(s, MarkRunning(t), u, parallelism)
    ensures Goes(u, Spawn(t), WithJob(WithRoom(s, h, Running), t, Job(h, s.rooms[h].id, Working, false, false))
                                .(children := s.children + {h}), parallelism)
  {
    u := WithJob(WithRoom(s, h, Running), t, Job(h, s.rooms[h].id, Marked, false, false));
    assert Next(u, Spawn(t), parallelism).jobs == s.jobs[t := Job(h, s.rooms[h].id, Working, false, false)];
  }

  /** A free slot takes the first job of the FIFO, marks its room and spawns its worker. */
  lemma StartAlone(s: State, t: nat, h: string, rest: seq<nat>, parallelism: nat)
    requires s.fifo == [t] + rest && s.runningCount < parallelism && t in s.jobs && h in s.rooms
    requires s.jobs[t] == Job(h, s.rooms[h].id, Waiting, false, s.jobs[t].struck)
    ensures Leads(s, [Shift, MarkRunning(t), Spawn(t)], Started(s, t, h, rest), parallelism)
  {
    hide Leads, Goes;
    var r := WithJob(s, t, s.jobs[t].(stage := Starting)).(fifo := rest, runningCount := s.runningCount + 1);
    ShiftAlone(s, t, rest, parallelism);
    var u := SpawnSteps(r, t, h, parallelism);
    var job := Job(h, s.rooms[h].id, Working, false, false);
    assert r.jobs[t := job] == s.jobs[t := job];
    InThree(s, Shift, r, MarkRunning(t), u, Spawn(t), Started(s, t, h, rest), parallelism);
  }

  // The end of a run

  /** What a run leaves when it is over: its room at rest, its job gone, its slot and child given back. */
  function Over(s: State, t: nat, h: string): State
    requires h in s.rooms
  {
    WithRoom(s, h, Idle).(jobs := s.jobs - {t}, runningCount := s.runningCount - 1, children := s.children - {h})
  }

  lemma CommitSteps(s: State, t: nat, h: string, parallelism: nat) returns (u: State, v: State)
    requires OnlyJob(s, t, h) && s.jobs[t].stage == Working && !s.jobs[t].committed
    ensures Goes(s, Commit(t), u, parallelism) && Goes(u, ChildCloses(t), v, parallelism)
    ensures v == WithJob(WithRoom(s, h, Idle), t, s.jobs[t].(stage := Ended, committed := true)).(children := s.children - {h})
  {
    u := WithJob(WithRoom(s, h, Idle), t, s.jobs[t].(committed := true));
    v := WithJob(u, t, s.jobs[t].(stage := Ended, committed := true)).(children := s.children - {h});
    assert v.jobs == s.jobs[t := s.jobs[t].(stage := Ended, committed := true)];
  }

  lemma ReconcileSteps(s: State, t: nat, h: string, parallelism: nat) returns (u: State, v: State)
    requires OnlyJob(s, t, h) && s.jobs[t].stage == Ended && s.jobs[t].committed && s.rooms[h].status == Idle
    ensures Goes(s, ReconcileRead(t), u, parallelism) && Goes(u, ReconcileWrite(t), v, parallelism)
    ensures v == WithJob(s, t, s.jobs[t].(stage := Reconciled))
  {
    u := WithJob(s, t, s.jobs[t].(stage := Reconciling(false)));
    v := WithJob(u, t, s.jobs[t].(stage := Reconciled));
    assert v.jobs == s.jobs[t := s.jobs[t].(stage := Reconciled)];
  }

  lemma FreeSteps(s: State, t: nat, h: string, parallelism: nat) returns (u: State)
    requires OnlyJob(s, t, h) && s.jobs[t].stage == Reconciled && s.rooms[h].status == Idle && s.calls == []
    ensures Goes(s, Free(t), u, parallelism)
    ensures Goes(u, Resume(0), s.(jobs := s.jobs - {t}, runningCount := s.runningCount - 1), parallelism)
  {
    u := s.(jobs := s.jobs - {t}, runningCount := s.runningCount - 1, calls := [ResetAsked(h)]);
  }

  /** A worker commits and ends; its room and slot are free, and the reset finds nothing to do. */
  lemma SuccessAlone(s: State, t: nat, h: string, parallelism: nat)
    requires OnlyJob(s, t, h) && s.jobs[t].stage == Working && !s.jobs[t].committed && s.calls == []
    ensures Leads(s, [Commit(t), ChildCloses(t)] + [ReconcileRead(t), ReconcileWrite(t)] + [Free(t), Resume(0)],
                  Over(s, t, h), parallelism)
  {
    hide Leads, Goes;
    var u, v := CommitSteps(s, t, h, parallelism);
    InTwo(s, Commit(t), u, ChildCloses(t), v, parallelism);
    var w, x := ReconcileSteps(v, t, h, parallelism);
    InTwo(v, ReconcileRead(t), w, ReconcileWrite(t), x, parallelism);
    var y := FreeSteps(x, t, h, parallelism);
    assert x.jobs - {t} == s.jobs - {t};
    InTwo(x, Free(t), y, Resume(0), Over(s, t, h), parallelism);
    Chained(s, [Commit(t), ChildCloses(t)], v, [ReconcileRead(t), ReconcileWrite(t)], x, parallelism);
    Chained(s, [Commit(t), ChildCloses(t)] + [ReconcileRead(t), ReconcileWrite(t)], x, [Free(t), Resume(0)], Over(s, t, h),
            parallelism);
  }

  lemma CloseSteps(s: State, t: nat, h: string, status: Status, parallelism: nat) returns (u: State, v: State, w: State)
    requires OnlyJob(s, t, h) && s.jobs[t].stage == Working && s.calls == [] && status in {Failed, Cancelled}
    ensures Goes(s, ChildCloses(t), u, parallelism) && Goes(u, CloseRun(t, status), v, parallelism)
    ensures Goes(v, Free(t), w, parallelism) && w == WithRoom(Over(s, t, h), h, status).(calls := [ResetAsked(h)])
  {
    u := WithJob(s, t, s.jobs[t].(stage := Ended)).(children := s.children - {h});
    v := WithJob(WithRoom(u, h, status), t, s.jobs[t].(stage := Closed));
    w := WithRoom(Over(s, t, h), h, status).(calls := [ResetAsked(h)]);
    assert v.jobs - {t} == s.jobs - {t};
    assert w.rooms == v.rooms;
  }

  lemma ResetSteps(s: State, h: string, parallelism: nat) returns (u: State, v: State)
    requires h in s.rooms && s.rooms[h].status in {Failed, Cancelled} && s.calls == [ResetAsked(h)]
    requires forall t | t in s.jobs :: s.jobs[t].hash != h
    ensures Goes(s, Resume(0), u, parallelism) && Goes(u, Resume(0), v, parallelism)
    ensures Goes(v, Resume(0), WithRoom(s, h, Idle).(calls := []), parallelism)
  {
    u, v := s.(calls := [ResetConfirmed(h)]), s.(calls := [ResetSent(h, s.rooms[h].id)]);
    StrikesNothing(s, h, Idle);
  }

  lemma StrikesNothing(s: State, h: string, status: Status)
    requires h in s.rooms && forall t | t in s.jobs :: s.jobs[t].hash != h
    ensures forall calls :: PutStriking(s.(calls := calls), h, s.rooms[h].id, status) == WithRoom(s, h, status).(calls := calls)
  {
    assert (map t | t in s.jobs ::
              if s.jobs[t].hash == h && s.jobs[t].room == s.rooms[h].id then s.jobs[t].(struck := true) else s.jobs[t]) == s.jobs;
  }

  lemma ResetAlone(s: State, h: string, parallelism: nat)
    requires h in s.rooms && s.rooms[h].status in {Failed, Cancelled} && s.calls == [ResetAsked(h)]
    requires forall t | t in s.jobs :: s.jobs[t].hash != h
    ensures Leads(s, [Resume(0), Resume(0), Resume(0)], WithRoom(s, h, Idle).(calls := []), parallelism)
  {
    hide Leads, Goes;
    var u, v := ResetSteps(s, h, parallelism);
    InThree(s, Resume(0), u, Resume(0), v, Resume(0), WithRoom(s, h, Idle).(calls := []), parallelism);
  }

  /** A worker ends without a commit; its run is closed, its slot is free, and the reset brings the room to rest. */
  lemma FailureAlone(s: State, t: nat, h: string, status: Status, parallelism: nat)
    requires OnlyJob(s, t, h) && s.jobs[t].stage == Working && s.calls == [] && status in {Failed, Cancelled}
    ensures Leads(s, [ChildCloses(t), CloseRun(t, status), Free(t)] + [Resume(0), Resume(0), Resume(0)],
                  Over(s, t, h), parallelism)
  {
    hide Leads, Goes;
    var u, v, w := CloseSteps(s, t, h, status, parallelism);
    InThree(s, ChildCloses(t), u, CloseRun(t, status), v, Free(t), w, parallelism);
    ResetAlone(w, h, parallelism);
    assert WithRoom(w, h, Idle).(calls := []) == Over(s, t, h);
    Chained(s, [ChildCloses(t), CloseRun(t, status), Free(t)], w, [Resume(0), Resume(0), Resume(0)], Over(s, t, h), parallelism);
  }

  // Cancel and removal

  lemma {:induction false} NothingTaken(jobs: map<nat, Job>, fifo: seq<nat>, h: string)
    requires forall t | t in fifo && t in jobs :: jobs[t].hash != h
    ensures TakenRooms(jobs, fifo, h) == [] && KeptTickets(jobs, fifo, h) == fifo
  {
    if fifo == [] {
    } else {
      var n := |fifo| - 1;
      NothingTaken(jobs, fifo[..n], h);
      assert fifo[n] in fifo && fifo == fifo[..n] + [fifo[n]];
    }
  }

  lemma {:induction false} OneTaken(jobs: map<nat, Job>, front: seq<nat>, t: nat, back: seq<nat>, h: string)
    requires WaitsFor(jobs, t, h)
    requires forall v | (v in front || v in back) && v in jobs :: jobs[v].hash != h
    ensures TakenRooms(jobs, front + [t] + back, h) == [jobs[t].room]
    ensures KeptTickets(jobs, front + [t] + back, h) == front + back
    decreases |back|
  {
    var fifo := front + [t] + back;
    if back == [] {
      NothingTaken(jobs, front, h);
      assert fifo[..|fifo| - 1] == front && front + back == front;
    } else {
      var n := |back| - 1;
      OneTaken(jobs, front, t, back[..n], h);
      assert fifo[..|fifo| - 1] == front + [t] + back[..n] && fifo[|fifo| - 1] == back[n] && back[n] in back;
      assert front + back == front + back[..n] + [back[n]];
    }
  }

  /** A job that waits between others. */
  ghost predicate WaitsBetween(s: State, front: seq<nat>, t: nat, back: seq<nat>, h: string) {
    && OnlyJob(s, t, h) && s.jobs[t].stage == Waiting && s.rooms[h].status == Queued
    && s.fifo == front + [t] + back && t !in front && t !in back && s.calls == []
  }

  lemma PurgedAlone(s: State, front: seq<nat>, t: nat, back: seq<nat>, h: string)
    requires WaitsBetween(s, front, t, back, h)
    ensures TakenRooms(s.jobs, s.fifo, h) == [s.rooms[h].id]
    ensures forall calls :: Purge(s.(calls := calls), h) == s.(jobs := s.jobs - {t}, fifo := front + back, calls := calls)
  {
    OneTaken(s.jobs, front, t, back, h);
    assert (map v | v in s.jobs && !WaitsFor(s.jobs, v, h) :: s.jobs[v]) == s.jobs - {t};
  }

  lemma CancelSteps(s: State, front: seq<nat>, t: nat, back: seq<nat>, h: string, parallelism: nat) returns (u: State, v: State)
    requires WaitsBetween(s, front, t, back, h)
    ensures Goes(s, StartCancel(h), u, parallelism) && Goes(u, Resume(0), v, parallelism)
    ensures v == s.(jobs := s.jobs - {t}, fifo := front + back, calls := [CancelClosing(h, [s.rooms[h].id])])
  {
    hide Purge, TakenRooms;
    u := s.(calls := [CancelSeen(h, s.rooms[h].id, true)]);
    v := s.(jobs := s.jobs - {t}, fifo := front + back, calls := [CancelClosing(h, [s.rooms[h].id])]);
    PurgedAlone(s, front, t, back, h);
  }

  lemma ClosingSteps(s: State, h: string, parallelism: nat) returns (u: State)
    requires h in s.rooms && s.calls == [CancelClosing(h, [s.rooms[h].id])]
    requires forall t | t in s.jobs :: s.jobs[t].hash != h
    ensures Goes(s, Resume(0), u, parallelism)
    ensures Goes(u, Resume(0), WithRoom(s, h, Cancelled).(calls := [ResetAsked(h)]), parallelism)
  {
    u := WithRoom(s, h, Cancelled).(calls := [CancelClosing(h, [])]);
    StrikesNothing(s, h, Cancelled);
    assert [s.rooms[h].id][1..] == [];
  }

  /** A cancel takes the waiting job off the FIFO, leaves the others in order, and the room is at rest. */
  lemma CancelAlone(s: State, front: seq<nat>, t: nat, back: seq<nat>, h: string, parallelism: nat)
    requires WaitsBetween(s, front, t, back, h)
    ensures Leads(s, [StartCancel(h), Resume(0)] + [Resume(0), Resume(0)] + [Resume(0), Resume(0), Resume(0)],
                  WithRoom(s, h, Idle).(jobs := s.jobs - {t}, fifo := front + back), parallelism)
  {
    hide Leads, Goes;
    var u, v := CancelSteps(s, front, t, back, h, parallelism);
    InTwo(s, StartCancel(h), u, Resume(0), v, parallelism);
    var w := ClosingSteps(v, h, parallelism);
    var x := WithRoom(v, h, Cancelled).(calls := [ResetAsked(h)]);
    InTwo(v, Resume(0), w, Resume(0), x, parallelism);
    ResetAlone(x, h, parallelism);
    var y := WithRoom(s, h, Idle).(jobs := s.jobs - {t}, fifo := front + back);
    assert WithRoom(x, h, Idle).(calls := []) == y;
    Chained(s, [StartCancel(h), Resume(0)], v, [Resume(0), Resume(0)], x, parallelism);
    Chained(s, [StartCancel(h), Resume(0)] + [Resume(0), Resume(0)], x, [Resume(0), Resume(0), Resume(0)], y, parallelism);
  }

  /** A cancel of a tracked worker's run writes nothing: the worker's end will. */
  lemma CancelRunningAlone(s: State, h: string, parallelism: nat)
    requires h in s.rooms && s.rooms[h].status in {Running, Fetching} && h in s.children && s.calls == []
    ensures Leads(s, [StartCancel(h), Resume(0)], s, parallelism)
  {
    hide Leads;
    InTwo(s, StartCancel(h), s.(calls := [CancelSeen(h, s.rooms[h].id, false)]), Resume(0), s, parallelism);
  }

  lemma RemovedSteps(s: State, front: seq<nat>, t: nat, back: seq<nat>, h: string, parallelism: nat) returns (u: State, v: State)
    requires WaitsBetween(s, front, t, back, h)
    ensures Goes(s, StartRemove(h), u, parallelism) && Goes(u, Resume(0), v, parallelism)
    ensures v == s.(jobs := s.jobs - {t}, fifo := front + back, calls := [RemoveClosing(h, [s.rooms[h].id])])
  {
    hide Purge, TakenRooms;
    u := s.(calls := [RemoveSeen(h)]);
    v := s.(jobs := s.jobs - {t}, fifo := front + back, calls := [RemoveClosing(h, [s.rooms[h].id])]);
    PurgedAlone(s, front, t, back, h);
  }

  lemma DeletingSteps(s: State, h: string, parallelism: nat) returns (u: State, v: State)
    requires h in s.rooms && s.calls == [RemoveClosing(h, [s.rooms[h].id])]
    requires forall t | t in s.jobs :: s.jobs[t].hash != h
    ensures Goes(s, Resume(0), u, parallelism) && Goes(u, Resume(0), v, parallelism)
    ensures Goes(v, Resume(0), s.(rooms := s.rooms - {h}, calls := []), parallelism)
  {
    u := WithRoom(s, h, Cancelled).(calls := [RemoveClosing(h, [])]);
    v := u.(calls := [RemoveDeleting(h)]);
    StrikesNothing(s, h, Cancelled);
    assert [s.rooms[h].id][1..] == [];
    assert v.rooms - {h} == s.rooms - {h};
  }

  /** A removal takes the waiting job and the room, and nothing else. */
  lemma RemoveAlone(s: State, front: seq<nat>, t: nat, back: seq<nat>, h: string, parallelism: nat)
    requires WaitsBetween(s, front, t, back, h)
    ensures Leads(s, [StartRemove(h), Resume(0)] + [Resume(0), Resume(0), Resume(0)],
                  s.(rooms := s.rooms - {h}, jobs := s.jobs - {t}, fifo := front + back), parallelism)
  {
    hide Leads, Goes;
    var u, v := RemovedSteps(s, front, t, back, h, parallelism);
    InTwo(s, StartRemove(h), u, Resume(0), v, parallelism);
    var w, x := DeletingSteps(v, h, parallelism);
    var y := s.(rooms := s.rooms - {h}, jobs := s.jobs - {t}, fifo := front + back);
    assert v.(rooms := v.rooms - {h}, calls := []) == y;
    InThree(v, Resume(0), w, Resume(0), x, Resume(0), y, parallelism);
    Chained(s, [StartRemove(h), Resume(0)], v, [Resume(0), Resume(0), Resume(0)], y, parallelism);
  }

  /** A removal of a config that is running is refused. */
  lemma RemoveRefusedAlone(s: State, h: string, parallelism: nat)
    requires h in s.rooms && s.rooms[h].status in {Running, Fetching}
    ensures Goes(s, StartRemove(h), s, parallelism)
  {
  }

  // What a run's report does to a newer job

  /**
   * The reconciliation writes or does not write by what it read: a room that an enqueue made active
   * after the commit is set to rest under the new job, one that became active after the read is left.
   */
  lemma ReconcileActsOnItsRead(s: State, t: nat, h: string, parallelism: nat) returns (u: State)
    requires t in s.jobs && h in s.rooms && s.jobs[t] == Job(h, s.rooms[h].id, Ended, true, s.jobs[t].struck)
    ensures Goes(s, ReconcileRead(t), u, parallelism)
    ensures forall status :: Goes(WithRoom(u, h, status), ReconcileWrite(t),
              WithRoom(WithJob(s, t, s.jobs[t].(stage := Reconciled)), h,
                       if s.rooms[h].status in {Queued, Running, Fetching} then Idle else status), parallelism)
  {
    u := WithJob(s, t, s.jobs[t].(stage := Reconciling(s.rooms[h].status in {Queued, Running, Fetching})));
    assert forall stage: Stage :: u.jobs[t := s.jobs[t].(stage := stage)] == s.jobs[t := s.jobs[t].(stage := stage)];
  }
}
