/**
 * Enqueue, run, cancel, removal and reset at the grain of single awaits.
 *
 * Between two awaits of one request any other request may act: a cancel or a removal decides on a
 * status it read earlier, a job is off the FIFO before its room is `running`, a room is `running`
 * before its worker is tracked, and the worker's own transaction sets the room `idle` while the
 * parent still holds the slot. This module says in which stages an enqueue gets in beside a live
 * job of the same hash, and that nothing else ever gives a hash two jobs.
 */
module HandoverWindow {
  import opened RoomDb
  import opened Wrappers

  /** The room a config is linked to. A room belongs to one hash, so hash and id together name it. */
  datatype Row = Row(id: nat, status: Status)

  /**
   * Where a job stands. `Queueing`: past the room transaction, not yet pushed. `Starting`: off the
   * FIFO, its room not yet marked. `Marked`: room marked `running`, no child tracked yet. `Working`:
   * its child is tracked. `Ended`: the child has closed. `Reconciling`: the parent has read the
   * room after an ok report. `Closed` and `Reconciled` only have to free the slot.
   */
  datatype Stage =
    | Queueing | Waiting | Starting | Marked | Working | Ended | Reconciling(seenActive: bool) | Reconciled | Closed

  /**
   * `committed`: the worker's transaction landed. `struck`: a cancel, a removal or a reset has
   * written the job's room since the job last wrote it active. No step depends on `struck`.
   */
  datatype Job = Job(hash: string, room: nat, stage: Stage, committed: bool, struck: bool)

  /** A request standing at an await, with what it has read so far. */
  datatype Call =
    | CancelSeen(hash: string, room: nat, queued: bool)
    | CancelClosing(hash: string, rooms: seq<nat>)
    | CancelQueuedSent(hash: string)
    | RemoveSeen(hash: string)
    | RemoveClosing(hash: string, rooms: seq<nat>)
    | RemoveDeleting(hash: string)
    | ResetAsked(hash: string)
    | ResetConfirmed(hash: string)
    | ResetSent(hash: string, room: nat)

  datatype State = State(
    rooms: map<string, Row>, nextRoom: nat, jobs: map<nat, Job>, nextJob: nat,
    fifo: seq<nat>, runningCount: int, children: set<string>, calls: seq<Call>)

  datatype Event =
    | Link(hash: string)
    | TryQueue(hash: string)
    | Push(job: nat)
    | Shift
    | MarkRunning(job: nat)
    | Spawn(job: nat)
    | Commit(job: nat)
    | ChildCloses(job: nat)
    | ReconcileRead(job: nat)
    | ReconcileWrite(job: nat)
    | CloseRun(job: nat, status: Status)
    | Free(job: nat)
    | StartCancel(hash: string)
    | StartRemove(hash: string)
    | Resume(call: nat)

  const BOOTED := State(map[], 0, map[], 0, [], 0, {}, [])

  predicate Active(status: Status) {
    IsActive(Some(status))
  }

  // What a step does

  /** `UPDATE room SET status ... WHERE id = room`. */
  function Put(s: State, h: string, room: nat, status: Status): State {
    if h in s.rooms && s.rooms[h].id == room then s.(rooms := s.rooms[h := Row(room, status)]) else s
  }

  /** The same write by a request that is not the job's own run. */
  function PutStriking(s: State, h: string, room: nat, status: Status): State {
    if h in s.rooms && s.rooms[h].id == room then
      s.(rooms := s.rooms[h := Row(room, status)],
         jobs := map t | t in s.jobs ::
           if s.jobs[t].hash == h && s.jobs[t].room == room then s.jobs[t].(struck := true) else s.jobs[t])
    else s
  }

  function CancelIfQueued(s: State, h: string): State {
    if h in s.rooms && s.rooms[h].status == Queued then PutStriking(s, h, s.rooms[h].id, Cancelled) else s
  }

  predicate WaitsFor(jobs: map<nat, Job>, t: nat, h: string) {
    t in jobs && jobs[t].hash == h && jobs[t].stage == Waiting
  }

  function TakenRooms(jobs: map<nat, Job>, fifo: seq<nat>, h: string): seq<nat> {
    if fifo == [] then []
    else
      var last := fifo[|fifo| - 1];
      TakenRooms(jobs, fifo[..|fifo| - 1], h) + if WaitsFor(jobs, last, h) then [jobs[last].room] else []
  }

  function KeptTickets(jobs: map<nat, Job>, fifo: seq<nat>, h: string): seq<nat> {
    if fifo == [] then []
    else
      var last := fifo[|fifo| - 1];
      KeptTickets(jobs, fifo[..|fifo| - 1], h) + if WaitsFor(jobs, last, h) then [] else [last]
  }

  function Purge(s: State, h: string): State {
    s.(fifo := KeptTickets(s.jobs, s.fifo, h), jobs := map t | t in s.jobs && !WaitsFor(s.jobs, t, h) :: s.jobs[t])
  }

  /** One request goes on from its await to the next one, or ends. */
  function Continue(s: State, call: Call): (State, seq<Call>) {
    match call
    case CancelSeen(h, room, queued) =>
      if queued then
        var taken := TakenRooms(s.jobs, s.fifo, h);
        (Purge(s, h), [if taken == [] then CancelQueuedSent(h) else CancelClosing(h, taken)])
      else if h in s.children then (s, [])
      else (s, [CancelClosing(h, [room])])
    case CancelClosing(h, rooms) =>
      if rooms == [] then (s, [ResetAsked(h)])
      else (PutStriking(s, h, rooms[0], Cancelled), [CancelClosing(h, rooms[1..])])
    case CancelQueuedSent(h) => (CancelIfQueued(s, h), [])
    case RemoveSeen(h) => (Purge(s, h), [RemoveClosing(h, TakenRooms(s.jobs, s.fifo, h))])
    case RemoveClosing(h, rooms) =>
      if rooms == [] then (CancelIfQueued(s, h), [RemoveDeleting(h)])
      else (PutStriking(s, h, rooms[0], Cancelled), [RemoveClosing(h, rooms[1..])])
    case RemoveDeleting(h) => (s.(rooms := s.rooms - {h}), [])
    case ResetAsked(h) => (s, if h in s.rooms && IsTerminal(Some(s.rooms[h].status)) then [ResetConfirmed(h)] else [])
    case ResetConfirmed(h) =>
      (s, if h in s.rooms && IsTerminal(Some(s.rooms[h].status)) then [ResetSent(h, s.rooms[h].id)] else [])
    case ResetSent(h, room) => (PutStriking(s, h, room, Idle), [])
  }

  predicate Stands(s: State, t: nat, stage: Stage) {
    t in s.jobs && s.jobs[t].stage == stage
  }

  predicate Enabled(s: State, e: Event, parallelism: nat) {
    match e
    case Push(t) => Stands(s, t, Queueing)
    case Shift => s.fifo != [] && s.runningCount < parallelism && Stands(s, s.fifo[0], Waiting)
    case MarkRunning(t) => Stands(s, t, Starting)
    case Spawn(t) => Stands(s, t, Marked)
    case Commit(t) => Stands(s, t, Working) && !s.jobs[t].committed
    case ChildCloses(t) => Stands(s, t, Working)
    case ReconcileRead(t) => Stands(s, t, Ended) && s.jobs[t].committed
    case ReconcileWrite(t) => t in s.jobs && s.jobs[t].stage.Reconciling?
    case CloseRun(t, status) =>
      && t in s.jobs && (s.jobs[t].stage.Ended? || s.jobs[t].stage.Reconciling? || s.jobs[t].stage.Reconciled?)
      && (status == Failed || status == Cancelled)
    case Free(t) => Stands(s, t, Closed) || Stands(s, t, Reconciled)
    case Resume(i) => i < |s.calls|
    case _ => true
  }

  function Move(s: State, t: nat, stage: Stage): State
    requires t in s.jobs
  {
    s.(jobs := s.jobs[t := s.jobs[t].(stage := stage)])
  }

  /** A job writes its own room and moves on. */
  function MoveAndPut(s: State, t: nat, job: Job, status: Status): State {
    Put(s, job.hash, job.room, status).(jobs := s.jobs[t := job])
  }

  function Next(s: State, e: Event, parallelism: nat): State
    requires Enabled(s, e, parallelism)
  {
    match e
    case Link(h) =>
      if h in s.rooms then s else s.(rooms := s.rooms[h := Row(s.nextRoom, Idle)], nextRoom := s.nextRoom + 1)
    case TryQueue(h) =>
      if h !in s.rooms || Active(s.rooms[h].status) then s
      else s.(rooms := s.rooms[h := s.rooms[h].(status := Queued)],
              jobs := s.jobs[s.nextJob := Job(h, s.rooms[h].id, Queueing, false, false)], nextJob := s.nextJob + 1)
    case Push(t) => Move(s, t, Waiting).(fifo := s.fifo + [t])
    case Shift => Move(s, s.fifo[0], Starting).(fifo := s.fifo[1..], runningCount := s.runningCount + 1)
    case MarkRunning(t) => MoveAndPut(s, t, s.jobs[t].(stage := Marked, struck := false), Running)
    case Spawn(t) => Move(s, t, Working).(children := s.children + {s.jobs[t].hash})
    case Commit(t) => MoveAndPut(s, t, s.jobs[t].(committed := true), Idle)
    case ChildCloses(t) => Move(s, t, Ended).(children := s.children - {s.jobs[t].hash})
    case ReconcileRead(t) =>
      var h := s.jobs[t].hash;
      Move(s, t, if h in s.rooms then Reconciling(Active(s.rooms[h].status)) else Reconciled)
    case ReconcileWrite(t) =>
      if s.jobs[t].stage.seenActive then MoveAndPut(s, t, s.jobs[t].(stage := Reconciled), Idle)
      else Move(s, t, Reconciled)
    case CloseRun(t, status) => MoveAndPut(s, t, s.jobs[t].(stage := Closed), status)
    case Free(t) =>
      s.(jobs := s.jobs - {t}, runningCount := s.runningCount - 1, calls := s.calls + [ResetAsked(s.jobs[t].hash)])
    case StartCancel(h) =>
      if h in s.rooms && Active(s.rooms[h].status)
      then s.(calls := s.calls + [CancelSeen(h, s.rooms[h].id, s.rooms[h].status == Queued)]) else s
    case StartRemove(h) =>
      if h in s.rooms && (s.rooms[h].status == Running || s.rooms[h].status == Fetching) then s
      else s.(calls := s.calls + [RemoveSeen(h)])
    case Resume(i) =>
      var (t, more) := Continue(s, s.calls[i]);
      t.(calls := s.calls[..i] + more + s.calls[i + 1..])
  }

  ghost predicate Run(states: seq<State>, events: seq<Event>, parallelism: nat) {
    && |states| == |events| + 1 && states[0] == BOOTED
    && forall i :: 0 <= i < |events| ==>
         Enabled(states[i], events[i], parallelism) && states[i + 1] == Next(states[i], events[i], parallelism)
  }

  // One job per hash

  /** A job is live from its room transaction until its slot is free or it is purged. */
  ghost predicate LiveFor(s: State, t: nat, h: string) {
    t in s.jobs && s.jobs[t].hash == h
  }

  ghost predicate Unique(s: State) {
    forall t, u | t in s.jobs && u in s.jobs && s.jobs[t].hash == s.jobs[u].hash :: t == u
  }

  /** The job's stage keeps its room active. */
  predicate Covers(job: Job) {
    !job.committed && job.stage != Closed && !job.struck
  }

  /**
   * The open stages of a live job: its worker has committed, its run is closed, its room was
   * written by a cancel, a removal or a reset since, or its room is gone and the config is back.
   */
  ghost predicate Open(s: State, h: string) {
    h in s.rooms && exists t :: LiveFor(s, t, h) && (s.jobs[t].room != s.rooms[h].id || !Covers(s.jobs[t]))
  }

  ghost predicate Accepts(s: State, h: string) {
    h in s.rooms && !Active(s.rooms[h].status)
  }

  /** The stage of a hash's only job determines whether the hash's room is active. */
  ghost predicate JobOk(s: State, t: nat)
    requires t in s.jobs
  {
    var job := s.jobs[t];
    && job.room < s.nextRoom && t < s.nextJob
    && (job.committed ==> job.stage in {Working, Ended, Reconciling(true), Reconciling(false), Reconciled, Closed})
    && (job.stage.Reconciling? || job.stage.Reconciled? ==> job.committed)
    && (job.hash in s.rooms ==>
          (Active(s.rooms[job.hash].status) <==> s.rooms[job.hash].id == job.room && Covers(job)))
  }

  ghost predicate Good(s: State) {
    && Unique(s)
    && (forall t | t in s.jobs :: JobOk(s, t))
    && (forall h | h in s.rooms :: s.rooms[h].id < s.nextRoom)
  }

  /** Beside a live job an enqueue is accepted exactly in the open stages. */
  lemma AcceptedIffOpen(s: State, t: nat, h: string)
    requires Good(s) && LiveFor(s, t, h)
    ensures Accepts(s, h) <==> Open(s, h)
  {
    assert JobOk(s, t);
  }

  lemma CallKeeps(s: State, i: nat, parallelism: nat)
    requires Good(s) && Enabled(s, Resume(i), parallelism)
    ensures Good(Next(s, Resume(i), parallelism))
  {
    var call := s.calls[i];
    var (t, more) := Continue(s, call);
    assert Next(s, Resume(i), parallelism) == t.(calls := s.calls[..i] + more + s.calls[i + 1..]);
    ContinueKeeps(s, call);
  }

  lemma StrikeKeeps(s: State, h: string, room: nat, status: Status)
    requires Good(s) && !Active(status)
    ensures Good(PutStriking(s, h, room, status))
  {
    var u := PutStriking(s, h, room, status);
    forall t | t in u.jobs
      ensures JobOk(u, t)
    {
      assert JobOk(s, t);
    }
  }

  lemma PurgeKeeps(s: State, h: string)
    requires Good(s)
    ensures Good(Purge(s, h))
  {
    hide KeptTickets;
    var u := Purge(s, h);
    forall t | t in u.jobs
      ensures JobOk(u, t)
    {
      assert JobOk(s, t);
    }
  }

  lemma DeleteKeeps(s: State, h: string)
    requires Good(s)
    ensures Good(s.(rooms := s.rooms - {h}))
  {
    var u := s.(rooms := s.rooms - {h});
    forall t | t in u.jobs
      ensures JobOk(u, t)
    {
      assert JobOk(s, t);
    }
  }

  lemma ContinueKeeps(s: State, call: Call)
    requires Good(s)
    ensures Good(Continue(s, call).0)
  {
    hide Good, PutStriking, Purge, TakenRooms;
    match call
    case CancelSeen(h, room, queued) => PurgeKeeps(s, h);
    case CancelClosing(h, rooms) => if rooms != [] { StrikeKeeps(s, h, rooms[0], Cancelled); }
    case CancelQueuedSent(h) => if h in s.rooms { StrikeKeeps(s, h, s.rooms[h].id, Cancelled); }
    case RemoveSeen(h) => PurgeKeeps(s, h);
    case RemoveClosing(h, rooms) =>
      if rooms != [] {
        StrikeKeeps(s, h, rooms[0], Cancelled);
      } else if h in s.rooms {
        StrikeKeeps(s, h, s.rooms[h].id, Cancelled);
      }
    case RemoveDeleting(h) => DeleteKeeps(s, h);
    case ResetAsked(h) =>
    case ResetConfirmed(h) =>
    case ResetSent(h, room) => StrikeKeeps(s, h, room, Idle);
  }

  predicate OwnStep(e: Event) {
    e.Push? || e.Shift? || e.MarkRunning? || e.Spawn? || e.Commit? || e.ChildCloses? || e.ReconcileRead?
    || e.ReconcileWrite? || e.CloseRun? || e.Free?
  }

  /** The job an own step moves. */
  function JobOf(s: State, e: Event): nat
    requires OwnStep(e) && (e.Shift? ==> s.fifo != [])
  {
    if e.Shift? then s.fifo[0] else e.job
  }

  /** A step of one job changes at most that job and the row of its room. */
  ghost predicate MovesOne(s: State, u: State, t: nat) {
    && t in s.jobs && t in u.jobs && u.jobs == s.jobs[t := u.jobs[t]]
    && u.jobs[t].hash == s.jobs[t].hash && u.jobs[t].room == s.jobs[t].room
    && u.nextRoom == s.nextRoom && u.nextJob == s.nextJob && u.rooms.Keys == s.rooms.Keys
    && forall h | h in s.rooms :: u.rooms[h].id == s.rooms[h].id && (h != s.jobs[t].hash ==> u.rooms[h] == s.rooms[h])
  }

  lemma MoveKeeps(s: State, u: State, t: nat)
    requires Good(s) && MovesOne(s, u, t) && JobOk(u, t)
    ensures Good(u)
  {
    forall x | x in u.jobs
      ensures JobOk(u, x)
    {
      assert JobOk(s, x);
    }
  }

  lemma OwnStepKeeps(s: State, e: Event, parallelism: nat)
    requires Good(s) && OwnStep(e) && Enabled(s, e, parallelism)
    ensures Good(Next(s, e, parallelism))
  {
    var u, t := Next(s, e, parallelism), JobOf(s, e);
    if e.Free? {
      assert forall x | x in u.jobs :: JobOk(s, x);
    } else {
      OwnStepMoves(s, e, parallelism);
      MoveKeeps(s, u, t);
    }
  }

  lemma OwnStepMoves(s: State, e: Event, parallelism: nat)
    requires Good(s) && OwnStep(e) && !e.Free? && Enabled(s, e, parallelism)
    ensures MovesOne(s, Next(s, e, parallelism), JobOf(s, e)) && JobOk(Next(s, e, parallelism), JobOf(s, e))
  {
    assert JobOk(s, JobOf(s, e));
  }

  /** Every step but an enqueue in an open stage keeps one job per hash and the rooms in step. */
  lemma StepKeeps(s: State, e: Event, parallelism: nat)
    requires Good(s) && Enabled(s, e, parallelism)
    requires e.TryQueue? ==> !Open(s, e.hash)
    ensures Good(Next(s, e, parallelism))
  {
    if OwnStep(e) {
      OwnStepKeeps(s, e, parallelism);
    } else if e.Resume? {
      CallKeeps(s, e.call, parallelism);
    } else {
      var u := Next(s, e, parallelism);
      forall t | t in s.jobs
        ensures JobOk(u, t) && (e.TryQueue? && u != s ==> s.jobs[t].hash != e.hash)
      {
        assert JobOk(s, t);
        assert e.TryQueue? && s.jobs[t].hash == e.hash ==> LiveFor(s, t, e.hash);
      }
    }
  }

  /** An enqueue in an open stage gives the hash two live jobs. */
  lemma OpenEnqueueDoubles(s: State, h: string, parallelism: nat)
    requires Good(s) && Open(s, h)
    ensures !Unique(Next(s, TryQueue(h), parallelism))
  {
    var t :| LiveFor(s, t, h) && (s.jobs[t].room != s.rooms[h].id || !Covers(s.jobs[t]));
    assert JobOk(s, t);
    var u := Next(s, TryQueue(h), parallelism);
    assert t in u.jobs && s.nextJob in u.jobs && t != s.nextJob;
  }

  /** The run has no enqueue, up to step i, that finds its hash in an open stage. */
  ghost predicate NoOpenEnqueue(states: seq<State>, events: seq<Event>, i: nat)
    requires i <= |events| < |states|
  {
    forall k :: 0 <= k < i && events[k].TryQueue? ==> !Open(states[k], events[k].hash)
  }

  lemma {:induction false} GoodWithoutOpenEnqueue(states: seq<State>, events: seq<Event>, parallelism: nat, i: nat)
    requires Run(states, events, parallelism) && i <= |events| && NoOpenEnqueue(states, events, i)
    ensures Good(states[i])
    decreases i
  {
    if i == 0 {
    } else {
      GoodWithoutOpenEnqueue(states, events, parallelism, i - 1);
      StepKeeps(states[i - 1], events[i - 1], parallelism);
    }
  }

  lemma {:induction false} GoodWhileUnique(states: seq<State>, events: seq<Event>, parallelism: nat, i: nat)
    requires Run(states, events, parallelism) && i <= |events| && forall k :: 0 <= k < |states| ==> Unique(states[k])
    ensures NoOpenEnqueue(states, events, i)
    decreases i
  {
    if i == 0 {
    } else {
      GoodWhileUnique(states, events, parallelism, i - 1);
      GoodWithoutOpenEnqueue(states, events, parallelism, i - 1);
      var s, e := states[i - 1], events[i - 1];
      if e.TryQueue? && Open(s, e.hash) {
        OpenEnqueueDoubles(s, e.hash, parallelism);
        assert Unique(states[i]);
      }
    }
  }

  /**
   * A run keeps at most one live job per hash throughout exactly when it has no enqueue that
   * finds its hash in an open stage.
   */
  lemma UniqueIffNoOpenEnqueue(states: seq<State>, events: seq<Event>, parallelism: nat)
    requires Run(states, events, parallelism)
    ensures (forall i :: 0 <= i < |states| ==> Unique(states[i])) <==> NoOpenEnqueue(states, events, |events|)
  {
    if NoOpenEnqueue(states, events, |events|) {
      forall i | 0 <= i < |states|
        ensures Unique(states[i])
      {
        GoodWithoutOpenEnqueue(states, events, parallelism, i);
      }
    } else if forall i :: 0 <= i < |states| ==> Unique(states[i]) {
      GoodWhileUnique(states, events, parallelism, |events|);
    }
  }

  // The FIFO

  /** The FIFO holds exactly the waiting jobs, each once. */
  ghost predicate FifoOk(s: State) {
    && (forall t :: t in s.fifo <==> Stands(s, t, Waiting))
    && (forall i, j :: 0 <= i < j < |s.fifo| ==> s.fifo[i] != s.fifo[j])
    && (forall t | t in s.jobs :: t < s.nextJob)
  }

  lemma {:induction false} KeptAre(jobs: map<nat, Job>, fifo: seq<nat>, h: string)
    requires forall i, j :: 0 <= i < j < |fifo| ==> fifo[i] != fifo[j]
    ensures var kept := KeptTickets(jobs, fifo, h);
            && (forall t :: t in kept <==> t in fifo && !WaitsFor(jobs, t, h))
            && (forall i, j :: 0 <= i < j < |kept| ==> kept[i] != kept[j])
  {
    if fifo == [] {
    } else {
      var init, last := fifo[..|fifo| - 1], fifo[|fifo| - 1];
      KeptAre(jobs, init, h);
      assert fifo == init + [last];
      assert last !in init;
    }
  }

  /** A request only ever takes waiting jobs away, from the FIFO and the jobs alike. */
  lemma ContinueStages(s: State, call: Call)
    ensures var u := Continue(s, call).0;
            && u.nextJob == s.nextJob && u.runningCount == s.runningCount
            && (forall t | t in u.jobs :: t in s.jobs && u.jobs[t].stage == s.jobs[t].stage)
            && (forall t | t in s.jobs && t !in u.jobs :: s.jobs[t].stage == Waiting)
            && ((u.fifo == s.fifo && u.jobs.Keys == s.jobs.Keys) || u == Purge(s, call.hash))
  {
    hide KeptTickets, TakenRooms;
  }

  lemma PurgeKeepsFifo(s: State, h: string)
    requires FifoOk(s)
    ensures FifoOk(Purge(s, h))
  {
    KeptAre(s.jobs, s.fifo, h);
    var u := Purge(s, h);
    assert forall t :: Stands(u, t, Waiting) <==> Stands(s, t, Waiting) && !WaitsFor(s.jobs, t, h);
  }

  lemma ContinueKeepsFifo(s: State, call: Call)
    requires FifoOk(s)
    ensures FifoOk(Continue(s, call).0)
  {
    hide Continue, Purge;
    ContinueStages(s, call);
    PurgeKeepsFifo(s, call.hash);
    var u := Continue(s, call).0;
    if u != Purge(s, call.hash) {
      assert forall t :: Stands(u, t, Waiting) <==> Stands(s, t, Waiting);
    }
  }

  lemma PushKeepsFifo(s: State, t: nat, parallelism: nat)
    requires FifoOk(s) && Stands(s, t, Queueing)
    ensures FifoOk(Next(s, Push(t), parallelism))
  {
    var u := Next(s, Push(t), parallelism);
    assert t !in s.fifo;
    assert forall x :: Stands(u, x, Waiting) <==> Stands(s, x, Waiting) || x == t;
  }

  lemma ShiftKeepsFifo(s: State, parallelism: nat)
    requires FifoOk(s) && Enabled(s, Shift, parallelism)
    ensures FifoOk(Next(s, Shift, parallelism))
  {
    var u := Next(s, Shift, parallelism);
    assert s.fifo == [s.fifo[0]] + u.fifo;
    assert forall x :: x in u.fifo <==> x in s.fifo && x != s.fifo[0];
  }

  lemma FifoStep(s: State, e: Event, parallelism: nat)
    requires FifoOk(s) && Enabled(s, e, parallelism)
    ensures FifoOk(Next(s, e, parallelism))
  {
    if e.Resume? {
      ContinueKeepsFifo(s, s.calls[e.call]);
      assert FifoOk(Continue(s, s.calls[e.call]).0);
    } else if e.Shift? {
      ShiftKeepsFifo(s, parallelism);
    } else if e.Push? {
      PushKeepsFifo(s, e.job, parallelism);
    } else {
      WaitersStay(s, e, parallelism);
    }
  }

  /** No other step puts a job on the FIFO or takes one off. */
  lemma WaitersStay(s: State, e: Event, parallelism: nat)
    requires FifoOk(s) && Enabled(s, e, parallelism) && !e.Resume? && !e.Shift? && !e.Push?
    ensures var u := Next(s, e, parallelism);
            && u.fifo == s.fifo && (forall t :: Stands(u, t, Waiting) <==> Stands(s, t, Waiting))
            && (forall t | t in u.jobs :: t < u.nextJob)
  {
    hide Continue;
  }

  /** In every state of every run the FIFO holds exactly the waiting jobs, each once. */
  lemma {:induction false} FifoHoldsTheWaiting(states: seq<State>, events: seq<Event>, parallelism: nat, i: nat)
    requires Run(states, events, parallelism) && i <= |events|
    ensures FifoOk(states[i])
    decreases i
  {
    if i == 0 {
    } else {
      FifoHoldsTheWaiting(states, events, parallelism, i - 1);
      FifoStep(states[i - 1], events[i - 1], parallelism);
    }
  }

  // The open stages occur

  ghost predicate Reachable(s: State, parallelism: nat) {
    exists states, events :: Run(states, events, parallelism) && states[|events|] == s
  }

  lemma Reach(s: State, e: Event, parallelism: nat) returns (u: State)
    requires Reachable(s, parallelism) && Enabled(s, e, parallelism)
    ensures u == Next(s, e, parallelism) && Reachable(u, parallelism)
  {
    u := Next(s, e, parallelism);
    var states, events :| Run(states, events, parallelism) && states[|events|] == s;
    var states', events' := states + [u], events + [e];
    assert Run(states', events', parallelism) && states'[|events'|] == u;
  }

  lemma Boot(parallelism: nat)
    ensures Reachable(BOOTED, parallelism)
  {
    var states, events: seq<Event> := [BOOTED], [];
    assert Run(states, events, parallelism) && states[|events|] == BOOTED;
  }

  /** A booted process with one config whose first job stands at `stage`. */
  function One(h: string, status: Status, stage: Stage, committed: bool, struck: bool): State {
    State(map[h := Row(0, status)], 1, map[0 := Job(h, 0, stage, committed, struck)], 1,
          if stage == Waiting then [0] else [], if stage == Queueing || stage == Waiting then 0 else 1,
          if stage == Working then {h} else {}, [])
  }

  lemma ReachQueueing(h: string, parallelism: nat)
    ensures Reachable(One(h, Queued, Queueing, false, false), parallelism)
  {
    hide Reachable;
    Boot(parallelism);
    var s := Reach(BOOTED, Link(h), parallelism);
    s := Reach(s, TryQueue(h), parallelism);
    assert s == One(h, Queued, Queueing, false, false);
  }

  lemma ReachStarting(h: string, parallelism: nat)
    requires parallelism >= 1
    ensures Reachable(One(h, Queued, Starting, false, false), parallelism)
  {
    hide Reachable;
    ReachQueueing(h, parallelism);
    var s := Reach(One(h, Queued, Queueing, false, false), Push(0), parallelism);
    s := Reach(s, Shift, parallelism);
    assert s == One(h, Queued, Starting, false, false);
  }

  lemma ReachMarked(h: string, parallelism: nat)
    requires parallelism >= 1
    ensures Reachable(One(h, Running, Marked, false, false), parallelism)
  {
    hide Reachable;
    ReachStarting(h, parallelism);
    var s := Reach(One(h, Queued, Starting, false, false), MarkRunning(0), parallelism);
    assert s == One(h, Running, Marked, false, false);
  }

  lemma ReachEnded(h: string, committed: bool, parallelism: nat)
    requires parallelism >= 1
    ensures Reachable(One(h, Running, Working, false, false), parallelism)
    ensures committed ==> Reachable(One(h, Idle, Working, true, false), parallelism)
    ensures Reachable(One(h, if committed then Idle else Running, Ended, committed, false), parallelism)
  {
    hide Reachable;
    ReachMarked(h, parallelism);
    var s := Reach(One(h, Running, Marked, false, false), Spawn(0), parallelism);
    assert s == One(h, Running, Working, false, false);
    if committed {
      s := Reach(s, Commit(0), parallelism);
      assert s == One(h, Idle, Working, true, false);
    }
    s := Reach(s, ChildCloses(0), parallelism);
    assert s == One(h, if committed then Idle else Running, Ended, committed, false);
  }

  /** A cancel that finds the room `queued` with its job out of the FIFO closes the room under the job. */
  lemma CancelQueuedStrikes(h: string, stage: Stage, parallelism: nat)
    requires stage == Queueing || stage == Starting
    requires Reachable(One(h, Queued, stage, false, false), parallelism)
    ensures Reachable(One(h, Cancelled, stage, false, true), parallelism)
  {
    hide Reachable;
    var s := Reach(One(h, Queued, stage, false, false), StartCancel(h), parallelism);
    assert s.calls == [CancelSeen(h, 0, true)];
    s := Reach(s, Resume(0), parallelism);
    assert s == One(h, Queued, stage, false, false).(calls := [CancelQueuedSent(h)]);
    s := Reach(s, Resume(0), parallelism);
    assert s == One(h, Cancelled, stage, false, true);
  }

  /** A cancel that finds the room `running` with no child tracked closes the room under the job. */
  lemma CancelUntrackedStrikes(h: string, stage: Stage, parallelism: nat)
    requires stage == Marked || stage == Ended
    requires Reachable(One(h, Running, stage, false, false), parallelism)
    ensures Reachable(One(h, Cancelled, stage, false, true).(calls := [CancelClosing(h, [])]), parallelism)
  {
    hide Reachable;
    var s := Reach(One(h, Running, stage, false, false), StartCancel(h), parallelism);
    assert s.calls == [CancelSeen(h, 0, false)];
    s := Reach(s, Resume(0), parallelism);
    assert s == One(h, Running, stage, false, false).(calls := [CancelClosing(h, [0])]);
    s := Reach(s, Resume(0), parallelism);
    assert [0][1..] == [];
    assert s == One(h, Cancelled, stage, false, true).(calls := [CancelClosing(h, [])]);
  }

  /** A job at `stage` is the hash's only one and the next enqueue is let in beside it. */
  ghost predicate OpenAt(h: string, stage: Stage, committed: bool, struck: bool, parallelism: nat) {
    exists s, t :: Reachable(s, parallelism) && Good(s) && Open(s, h) && LiveFor(s, t, h)
                && s.jobs[t].stage == stage && s.jobs[t].committed == committed && s.jobs[t].struck == struck
  }

  lemma OpenWitness(s: State, t: nat, h: string, parallelism: nat)
    requires Reachable(s, parallelism) && h in s.rooms && s.rooms.Keys == {h} && s.jobs.Keys == {t} && LiveFor(s, t, h)
    requires s.jobs[t].room == s.rooms[h].id < s.nextRoom && t < s.nextJob
    requires !Covers(s.jobs[t]) && !Active(s.rooms[h].status)
    requires s.jobs[t].committed ==> s.jobs[t].stage.Working? || s.jobs[t].stage.Ended?
    requires !s.jobs[t].stage.Reconciling? && !s.jobs[t].stage.Reconciled?
    ensures OpenAt(h, s.jobs[t].stage, s.jobs[t].committed, s.jobs[t].struck, parallelism)
  {
    hide Reachable;
    assert Good(s) && Open(s, h);
  }

  /** Before the worker runs and after it ended without committing, a cancel opens the job's stage. */
  lemma CancelOpens(h: string, parallelism: nat)
    requires parallelism >= 1
    ensures OpenAt(h, Queueing, false, true, parallelism) && OpenAt(h, Starting, false, true, parallelism)
    ensures OpenAt(h, Marked, false, true, parallelism) && OpenAt(h, Ended, false, true, parallelism)
  {
    hide Reachable, OpenAt;
    ReachQueueing(h, parallelism);
    CancelQueuedStrikes(h, Queueing, parallelism);
    OpenWitness(One(h, Cancelled, Queueing, false, true), 0, h, parallelism);
    ReachStarting(h, parallelism);
    CancelQueuedStrikes(h, Starting, parallelism);
    OpenWitness(One(h, Cancelled, Starting, false, true), 0, h, parallelism);
    ReachMarked(h, parallelism);
    CancelUntrackedStrikes(h, Marked, parallelism);
    OpenWitness(One(h, Cancelled, Marked, false, true).(calls := [CancelClosing(h, [])]), 0, h, parallelism);
    ReachEnded(h, false, parallelism);
    CancelUntrackedStrikes(h, Ended, parallelism);
    OpenWitness(One(h, Cancelled, Ended, false, true).(calls := [CancelClosing(h, [])]), 0, h, parallelism);
  }

  /** A worker that committed, or a closed run, leaves the stage open until its slot is free. */
  lemma HandoverOpens(h: string, parallelism: nat)
    requires parallelism >= 1
    ensures OpenAt(h, Working, true, false, parallelism) && OpenAt(h, Ended, true, false, parallelism)
    ensures OpenAt(h, Closed, false, false, parallelism)
  {
    hide Reachable, OpenAt;
    ReachEnded(h, true, parallelism);
    OpenWitness(One(h, Idle, Working, true, false), 0, h, parallelism);
    OpenWitness(One(h, Idle, Ended, true, false), 0, h, parallelism);
    ReachEnded(h, false, parallelism);
    var s := Reach(One(h, Running, Ended, false, false), CloseRun(0, Failed), parallelism);
    assert s == One(h, Failed, Closed, false, false);
    OpenWitness(s, 0, h, parallelism);
  }

  lemma ReachFreed(h: string, parallelism: nat)
    requires parallelism >= 1
    ensures Reachable(State(map[h := Row(0, Failed)], 1, map[], 1, [], 0, {}, [ResetAsked(h)]), parallelism)
  {
    hide Reachable;
    ReachEnded(h, false, parallelism);
    var s := Reach(One(h, Running, Ended, false, false), CloseRun(0, Failed), parallelism);
    assert s == One(h, Failed, Closed, false, false);
    s := Reach(s, Free(0), parallelism);
    assert s == State(map[h := Row(0, Failed)], 1, map[], 1, [], 0, {}, [ResetAsked(h)]);
  }

  lemma ReachLateReset(h: string, parallelism: nat)
    requires parallelism >= 1
    ensures Reachable(State(map[h := Row(0, Failed)], 1, map[], 1, [], 0, {}, [ResetSent(h, 0)]), parallelism)
  {
    hide Reachable;
    ReachFreed(h, parallelism);
    var s := Reach(State(map[h := Row(0, Failed)], 1, map[], 1, [], 0, {}, [ResetAsked(h)]), Resume(0), parallelism);
    assert s.calls == [ResetConfirmed(h)];
    s := Reach(s, Resume(0), parallelism);
    assert s.calls == [ResetSent(h, 0)];
  }

  lemma ReachOvertaken(h: string, parallelism: nat)
    requires Reachable(State(map[h := Row(0, Failed)], 1, map[], 1, [], 0, {}, [ResetSent(h, 0)]), parallelism)
    ensures Reachable(State(map[h := Row(0, Queued)], 1, map[1 := Job(h, 0, Waiting, false, false)], 2, [1], 0, {},
                            [ResetSent(h, 0)]), parallelism)
  {
    hide Reachable;
    var s := Reach(State(map[h := Row(0, Failed)], 1, map[], 1, [], 0, {}, [ResetSent(h, 0)]), TryQueue(h), parallelism);
    assert s.jobs == map[1 := Job(h, 0, Queueing, false, false)];
    s := Reach(s, Push(1), parallelism);
    assert s == State(map[h := Row(0, Queued)], 1, map[1 := Job(h, 0, Waiting, false, false)], 2, [1], 0, {},
                      [ResetSent(h, 0)]);
  }

  /** The reset that follows a failed run can land after the next enqueue and open its waiting job. */
  lemma LateResetOpens(h: string, parallelism: nat)
    requires parallelism >= 1
    ensures OpenAt(h, Waiting, false, true, parallelism)
  {
    hide Reachable, OpenAt;
    ReachLateReset(h, parallelism);
    ReachOvertaken(h, parallelism);
    var s := State(map[h := Row(0, Queued)], 1, map[1 := Job(h, 0, Waiting, false, false)], 2, [1], 0, {}, [ResetSent(h, 0)]);
    s := Reach(s, Resume(0), parallelism);
    assert s == State(map[h := Row(0, Idle)], 1, map[1 := Job(h, 0, Waiting, false, true)], 2, [1], 0, {}, []);
    OpenWitness(s, 1, h, parallelism);
  }

  lemma ReachRemoval(h: string, parallelism: nat)
    requires parallelism >= 1
    ensures Reachable(One(h, Cancelled, Starting, false, true).(calls := [RemoveDeleting(h)]), parallelism)
  {
    hide Reachable;
    ReachStarting(h, parallelism);
    var s := Reach(One(h, Queued, Starting, false, false), StartRemove(h), parallelism);
    assert s.calls == [RemoveSeen(h)];
    s := Reach(s, Resume(0), parallelism);
    assert s == One(h, Queued, Starting, false, false).(calls := [RemoveClosing(h, [])]);
    s := Reach(s, Resume(0), parallelism);
    assert s == One(h, Cancelled, Starting, false, true).(calls := [RemoveDeleting(h)]);
  }

  /** Removing the config under a starting job and creating it again lets a second job in. */
  lemma RemovalOpens(h: string, parallelism: nat) returns (s: State)
    requires parallelism >= 1
    ensures Reachable(s, parallelism) && Good(s) && Open(s, h)
    ensures Stands(s, 0, Starting) && s.jobs.Keys == {0} && h in s.rooms && s.jobs[0].room != s.rooms[h].id
  {
    hide Reachable;
    ReachRemoval(h, parallelism);
    s := Reach(One(h, Cancelled, Starting, false, true).(calls := [RemoveDeleting(h)]), Resume(0), parallelism);
    s := Reach(s, Link(h), parallelism);
    assert s.rooms == map[h := Row(1, Idle)] && LiveFor(s, 0, h);
  }

  // Two workers on one catalog

  ghost predicate TwoWriters(s: State, h: string) {
    exists t, u :: t != u && LiveFor(s, t, h) && LiveFor(s, u, h)
                && Stands(s, t, Working) && Stands(s, u, Working) && !s.jobs[t].committed && !s.jobs[u].committed
  }

  predicate HoldsSlot(s: State, t: nat) {
    t in s.jobs && s.jobs[t].stage != Queueing && s.jobs[t].stage != Waiting
  }

  /** With at most one slot, at most one job is off the FIFO. */
  ghost predicate OneSlot(s: State) {
    && 0 <= s.runningCount <= 1
    && (forall t, u | HoldsSlot(s, t) && HoldsSlot(s, u) :: t == u)
    && (forall t | HoldsSlot(s, t) :: s.runningCount == 1)
    && (forall t | t in s.jobs :: t < s.nextJob)
  }

  /** Only a shift lets a job hold a slot that did not hold one. */
  lemma HoldersStay(s: State, e: Event, parallelism: nat)
    requires Enabled(s, e, parallelism) && !e.Shift? && forall t | t in s.jobs :: t < s.nextJob
    ensures var u := Next(s, e, parallelism);
            && (forall t | HoldsSlot(u, t) :: HoldsSlot(s, t)) && (forall t | t in u.jobs :: t < u.nextJob)
            && (e.Free? ==> HoldsSlot(s, e.job) && !HoldsSlot(u, e.job))
            && u.runningCount == s.runningCount - if e.Free? then 1 else 0
  {
    hide Continue;
    if e.Resume? {
      ContinueStages(s, s.calls[e.call]);
    }
  }

  lemma OneSlotStep(s: State, e: Event, parallelism: nat)
    requires OneSlot(s) && parallelism <= 1 && Enabled(s, e, parallelism)
    ensures OneSlot(Next(s, e, parallelism))
  {
    var u := Next(s, e, parallelism);
    if e.Shift? {
      assert forall t | HoldsSlot(u, t) :: HoldsSlot(s, t) || t == s.fifo[0];
    } else {
      hide Next;
      HoldersStay(s, e, parallelism);
    }
  }

  lemma {:induction false} OneSlotAlways(states: seq<State>, events: seq<Event>, parallelism: nat, i: nat)
    requires Run(states, events, parallelism) && parallelism <= 1 && i <= |events|
    ensures OneSlot(states[i])
    decreases i
  {
    if i == 0 {
    } else {
      OneSlotAlways(states, events, parallelism, i - 1);
      OneSlotStep(states[i - 1], events[i - 1], parallelism);
    }
  }

  /** Two jobs of one hash off the FIFO. */
  function Two(h: string, status: Status, stage: Stage, struck: bool): State {
    State(map[h := Row(0, status)], 1, map[0 := Job(h, 0, stage, false, struck), 1 := Job(h, 0, stage, false, false)], 2,
          [], 2, if stage == Working then {h} else {}, [])
  }

  /** A cancel in the shift window lets a second job in, and both take a slot. */
  lemma ReachTwoStarting(h: string, parallelism: nat)
    requires parallelism >= 2
    ensures Reachable(Two(h, Queued, Starting, true), parallelism)
  {
    hide Reachable;
    ReachStarting(h, parallelism);
    CancelQueuedStrikes(h, Starting, parallelism);
    var s := Reach(One(h, Cancelled, Starting, false, true), TryQueue(h), parallelism);
    assert s.jobs == map[0 := Job(h, 0, Starting, false, true), 1 := Job(h, 0, Queueing, false, false)];
    s := Reach(s, Push(1), parallelism);
    s := Reach(s, Shift, parallelism);
    assert s == Two(h, Queued, Starting, true);
  }

  lemma ReachTwoMarked(h: string, parallelism: nat)
    requires parallelism >= 2
    ensures Reachable(Two(h, Running, Marked, false), parallelism)
  {
    hide Reachable;
    ReachTwoStarting(h, parallelism);
    var s := Reach(Two(h, Queued, Starting, true), MarkRunning(0), parallelism);
    s := Reach(s, MarkRunning(1), parallelism);
    assert s == Two(h, Running, Marked, false);
  }

  /** One cancel in the shift window is enough for two workers at one hash's catalog. */
  lemma TwoWritersReachable(h: string, parallelism: nat) returns (s: State)
    requires parallelism >= 2
    ensures Reachable(s, parallelism) && TwoWriters(s, h)
  {
    hide Reachable;
    ReachTwoMarked(h, parallelism);
    s := Reach(Two(h, Running, Marked, false), Spawn(0), parallelism);
    s := Reach(s, Spawn(1), parallelism);
    assert LiveFor(s, 0, h) && LiveFor(s, 1, h) && Stands(s, 0, Working) && Stands(s, 1, Working);
  }

  /** Two workers can be at one hash's catalog at once exactly when there are two slots. */
  lemma TwoWritersIffTwoSlots(h: string, parallelism: nat)
    ensures (exists s :: Reachable(s, parallelism) && TwoWriters(s, h)) <==> parallelism >= 2
  {
    if parallelism >= 2 {
      var s := TwoWritersReachable(h, parallelism);
    } else if s :| Reachable(s, parallelism) && TwoWriters(s, h) {
      var states, events :| Run(states, events, parallelism) && states[|events|] == s;
      OneSlotAlways(states, events, parallelism, |events|);
      var t, u :| t != u && LiveFor(s, t, h) && LiveFor(s, u, h)
               && Stands(s, t, Working) && Stands(s, u, Working) && !s.jobs[t].committed && !s.jobs[u].committed;
      assert HoldsSlot(s, t) && HoldsSlot(s, u);
      assert false;
    }
  }
}
