/**
 * The queue in time, at the finest grain: any interleaving of pushes, purges, drains and worker
 * ends. Slots get an identity here (the source only counts them) and every push a ticket.
 *
 * Time passes only while no drain is due, and a job holds its slot for at most `maxRun`.
 */
module Admission {
  import opened Arithmetic
  import opened Wrappers
  import opened QueueSpec

  datatype Holding = Holding(ticket: nat, since: nat)

  /**
   * A waiting job. `position` is its 1-based place when pushed, `checked` the FIFO length its
   * admission check saw, `base` the starts each slot had made when it was pushed.
   */
  datatype Waiting = Waiting(ticket: nat, hash: string, pushedAt: nat, position: nat, checked: nat, base: seq<nat>)

  datatype Started = Started(job: Waiting, at: nat)

  datatype State = State(
    now: nat, slots: seq<Option<Holding>>, starts: seq<nat>, fifo: seq<Waiting>, nextTicket: nat,
    log: seq<Started>, finished: set<nat>, purged: set<nat>)

  datatype Event =
    | Tick(dt: nat)
    | Push(hash: string, checked: nat)
    | DrainOne(slot: nat)
    | Finish(slot: nat)
    | PurgeHash(hash: string)

  ghost predicate DrainDue(s: State) {
    s.fifo != [] && exists i :: 0 <= i < |s.slots| && s.slots[i].None?
  }

  function Keep(fifo: seq<Waiting>, hash: string): seq<Waiting> {
    if fifo == [] then []
    else (if fifo[0].hash == hash then [] else [fifo[0]]) + Keep(fifo[1..], hash)
  }

  ghost function Tickets(fifo: seq<Waiting>): set<nat> {
    set w | w in fifo :: w.ticket
  }

  ghost function HeldTickets(slots: seq<Option<Holding>>): set<nat> {
    set h: Option<Holding> | h in slots && h.Some? :: h.value.ticket
  }

  /** A drain step needs a free slot, an end a taken one; time stops while a drain is due. */
  ghost predicate Enabled(s: State, e: Event, maxRun: nat) {
    match e
    case Tick(dt) =>
      && !DrainDue(s)
      && (forall i :: 0 <= i < |s.slots| && s.slots[i].Some? ==> s.now + dt <= s.slots[i].value.since + maxRun)
    case DrainOne(i) => i < |s.slots| == |s.starts| && s.slots[i].None? && s.fifo != []
    case Finish(i) => i < |s.slots| && s.slots[i].Some?
    case _ => true
  }

  ghost function Next(s: State, e: Event, maxRun: nat): State
    requires Enabled(s, e, maxRun)
  {
    match e
    case Tick(dt) => s.(now := s.now + dt)
    case Push(hash, checked) =>
      s.(fifo := s.fifo + [Waiting(s.nextTicket, hash, s.now, |s.fifo| + 1, checked, s.starts)],
         nextTicket := s.nextTicket + 1)
    case DrainOne(i) =>
      s.(slots := s.slots[i := Some(Holding(s.fifo[0].ticket, s.now))],
         starts := s.starts[i := s.starts[i] + 1],
         fifo := s.fifo[1..],
         log := s.log + [Started(s.fifo[0], s.now)])
    case Finish(i) => s.(slots := s.slots[i := None], finished := s.finished + {s.slots[i].value.ticket})
    case PurgeHash(hash) =>
      s.(fifo := Keep(s.fifo, hash), purged := s.purged + (Tickets(s.fifo) - Tickets(Keep(s.fifo, hash))))
  }

  ghost predicate Step(s: State, e: Event, t: State, maxRun: nat) {
    Enabled(s, e, maxRun) && t == Next(s, e, maxRun)
  }

  ghost predicate Initial(s: State, parallelism: nat) {
    && |s.slots| == |s.starts| == parallelism && (forall i :: 0 <= i < parallelism ==> s.slots[i].None?)
    && s.fifo == [] && s.log == [] && s.nextTicket == 0 && s.finished == {} && s.purged == {}
  }

  ghost predicate Run(states: seq<State>, events: seq<Event>, parallelism: nat, maxRun: nat) {
    && |states| == |events| + 1 && Initial(states[0], parallelism)
    && forall i :: 0 <= i < |events| ==> Step(states[i], events[i], states[i + 1], maxRun)
  }

  // Sums over slots

  function Sum(xs: seq<nat>): nat {
    if xs == [] then 0 else xs[0] + Sum(xs[1..])
  }

  lemma {:induction false} SumOfUpdate(xs: seq<nat>, i: nat)
    requires i < |xs|
    ensures Sum(xs[i := xs[i] + 1]) == Sum(xs) + 1
  {
    var ys := xs[i := xs[i] + 1];
    if i == 0 {
      assert ys[1..] == xs[1..];
    } else {
      assert ys[1..] == xs[1..][i - 1 := xs[1..][i - 1] + 1];
      SumOfUpdate(xs[1..], i - 1);
    }
  }

  /** If every slot has made `m` starts since `base`, together they made `m` times as many. */
  lemma {:induction false} SumAtLeast(xs: seq<nat>, base: seq<nat>, m: nat)
    requires |base| == |xs| && forall i :: 0 <= i < |xs| ==> xs[i] >= base[i] + m
    ensures Sum(xs) >= Sum(base) + m * |xs|
  {
    if xs == [] {
    } else {
      SumAtLeast(xs[1..], base[1..], m);
      assert m * |xs| == m * |xs[1..]| + m;
    }
  }

  // The timing invariant

  /** The latest moment slot `i` could have begun its current work, seen from a waiting job. */
  ghost predicate SlotOnTime(s: State, w: Waiting, i: nat, maxRun: nat)
    requires i < |s.slots| == |s.starts| == |w.base|
  {
    && w.base[i] <= s.starts[i]
    && (s.slots[i].Some? ==> s.slots[i].value.since <= w.pushedAt + (s.starts[i] - w.base[i]) * maxRun)
    && (s.slots[i].None? ==> s.now <= w.pushedAt + (s.starts[i] - w.base[i] + 1) * maxRun)
  }

  /** A job at index `p` has seen at most as many starts since its push as it has moved up. */
  ghost predicate WaitingOk(s: State, p: nat, maxRun: nat)
    requires p < |s.fifo|
  {
    var w := s.fifo[p];
    && |s.slots| == |s.starts| == |w.base|
    && (forall i :: 0 <= i < |s.slots| ==> SlotOnTime(s, w, i, maxRun))
    && p + 1 + Sum(s.starts) <= w.position + Sum(w.base)
  }

  ghost predicate OnTime(started: Started, parallelism: nat, maxRun: nat)
    requires parallelism >= 1
  {
    started.at <= started.job.pushedAt + EstimateBacklogMs(started.job.position, maxRun, parallelism)
  }

  ghost predicate Timely(s: State, parallelism: nat, maxRun: nat)
    requires parallelism >= 1
  {
    && |s.slots| == |s.starts| == parallelism
    && (forall i :: 0 <= i < parallelism && s.slots[i].Some? ==> s.now <= s.slots[i].value.since + maxRun)
    && (forall p :: 0 <= p < |s.fifo| ==> WaitingOk(s, p, maxRun))
    && (forall x | x in s.log :: OnTime(x, parallelism, maxRun))
  }

  /**
   * A waiting job at the head cannot be late: were it still waiting past its bound, every slot
   * would have made too many starts.
   */
  lemma HeadOnTime(s: State, parallelism: nat, maxRun: nat)
    requires parallelism >= 1 && Timely(s, parallelism, maxRun) && s.fifo != []
    ensures OnTime(Started(s.fifo[0], s.now), parallelism, maxRun)
  {
    var w := s.fifo[0];
    var m := CeilDiv(w.position, parallelism);
    assert WaitingOk(s, 0, maxRun);
    if forall i :: 0 <= i < parallelism ==> s.starts[i] >= w.base[i] + m {
      SumAtLeast(s.starts, w.base, m);
    } else {
      var i :| 0 <= i < parallelism && s.starts[i] < w.base[i] + m;
      assert SlotOnTime(s, w, i, maxRun);
      var k := s.starts[i] - w.base[i];
      Distribute(k, m, maxRun);
      Distribute(k + 1, m, maxRun);
    }
  }

  lemma TickTimely(s: State, dt: nat, t: State, parallelism: nat, maxRun: nat)
    requires parallelism >= 1 && Timely(s, parallelism, maxRun) && Step(s, Tick(dt), t, maxRun)
    ensures Timely(t, parallelism, maxRun)
  {
    forall p | 0 <= p < |t.fifo|
      ensures WaitingOk(t, p, maxRun)
    {
      assert WaitingOk(s, p, maxRun);
      forall i | 0 <= i < |t.slots|
        ensures SlotOnTime(t, t.fifo[p], i, maxRun)
      {
        assert SlotOnTime(s, s.fifo[p], i, maxRun);
      }
    }
  }

  lemma PushTimely(s: State, hash: string, checked: nat, t: State, parallelism: nat, maxRun: nat)
    requires parallelism >= 1 && Timely(s, parallelism, maxRun) && Step(s, Push(hash, checked), t, maxRun)
    requires forall i :: 0 <= i < |s.slots| && s.slots[i].Some? ==> s.slots[i].value.since <= s.now
    ensures Timely(t, parallelism, maxRun)
  {
    forall p | 0 <= p < |t.fifo|
      ensures WaitingOk(t, p, maxRun)
    {
      if p < |s.fifo| {
        assert t.fifo[p] == s.fifo[p] && WaitingOk(s, p, maxRun);
        forall i | 0 <= i < |t.slots|
          ensures SlotOnTime(t, t.fifo[p], i, maxRun)
        {
          assert SlotOnTime(s, s.fifo[p], i, maxRun);
        }
      }
    }
  }

  lemma DrainTimely(s: State, slot: nat, t: State, parallelism: nat, maxRun: nat)
    requires parallelism >= 1 && Timely(s, parallelism, maxRun) && Step(s, DrainOne(slot), t, maxRun)
    ensures Timely(t, parallelism, maxRun)
  {
    HeadOnTime(s, parallelism, maxRun);
    SumOfUpdate(s.starts, slot);
    forall p | 0 <= p < |t.fifo|
      ensures WaitingOk(t, p, maxRun)
    {
      var w := t.fifo[p];
      assert w == s.fifo[p + 1] && WaitingOk(s, p + 1, maxRun);
      forall i | 0 <= i < |t.slots|
        ensures SlotOnTime(t, w, i, maxRun)
      {
        assert SlotOnTime(s, w, i, maxRun);
      }
    }
  }

  lemma FinishTimely(s: State, slot: nat, t: State, parallelism: nat, maxRun: nat)
    requires parallelism >= 1 && Timely(s, parallelism, maxRun) && Step(s, Finish(slot), t, maxRun)
    ensures Timely(t, parallelism, maxRun)
  {
    forall p | 0 <= p < |t.fifo|
      ensures WaitingOk(t, p, maxRun)
    {
      var w := t.fifo[p];
      assert WaitingOk(s, p, maxRun);
      forall i | 0 <= i < |t.slots|
        ensures SlotOnTime(t, w, i, maxRun)
      {
        assert SlotOnTime(s, w, i, maxRun);
        Distribute(s.starts[i] - w.base[i], 0, maxRun);
      }
    }
  }

  /** Each kept job was at the same index or further back. */
  lemma {:induction false} KeptFrom(fifo: seq<Waiting>, hash: string, p: nat)
    requires p < |Keep(fifo, hash)|
    ensures exists k :: p <= k < |fifo| && fifo[k] == Keep(fifo, hash)[p]
  {
    if fifo[0].hash == hash {
      KeptFrom(fifo[1..], hash, p);
      var k :| p <= k < |fifo[1..]| && fifo[1..][k] == Keep(fifo[1..], hash)[p];
      assert fifo[k + 1] == Keep(fifo, hash)[p];
    } else if p == 0 {
      assert fifo[0] == Keep(fifo, hash)[0];
    } else {
      KeptFrom(fifo[1..], hash, p - 1);
      var k :| p - 1 <= k < |fifo[1..]| && fifo[1..][k] == Keep(fifo[1..], hash)[p - 1];
      assert fifo[k + 1] == Keep(fifo, hash)[p];
    }
  }

  lemma PurgeTimely(s: State, hash: string, t: State, parallelism: nat, maxRun: nat)
    requires parallelism >= 1 && Timely(s, parallelism, maxRun) && Step(s, PurgeHash(hash), t, maxRun)
    ensures Timely(t, parallelism, maxRun)
  {
    forall p | 0 <= p < |t.fifo|
      ensures WaitingOk(t, p, maxRun)
    {
      KeptFrom(s.fifo, hash, p);
      var k :| p <= k < |s.fifo| && s.fifo[k] == t.fifo[p];
      assert WaitingOk(s, k, maxRun);
      forall i | 0 <= i < |t.slots|
        ensures SlotOnTime(t, t.fifo[p], i, maxRun)
      {
        assert SlotOnTime(s, s.fifo[k], i, maxRun);
      }
    }
  }

  /** No slot claims to have started in the future. */
  ghost predicate ClockOk(s: State) {
    forall i :: 0 <= i < |s.slots| && s.slots[i].Some? ==> s.slots[i].value.since <= s.now
  }

  lemma {:induction false} RunTimely(states: seq<State>, events: seq<Event>, parallelism: nat, maxRun: nat, i: nat)
    requires parallelism >= 1 && Run(states, events, parallelism, maxRun) && i < |states|
    ensures Timely(states[i], parallelism, maxRun) && ClockOk(states[i])
    decreases i
  {
    if i == 0 {
    } else {
      RunTimely(states, events, parallelism, maxRun, i - 1);
      var s, t := states[i - 1], states[i];
      assert Step(s, events[i - 1], t, maxRun);
      match events[i - 1]
      case Tick(dt) => TickTimely(s, dt, t, parallelism, maxRun);
      case Push(hash, checked) => PushTimely(s, hash, checked, t, parallelism, maxRun);
      case DrainOne(slot) => DrainTimely(s, slot, t, parallelism, maxRun);
      case Finish(slot) => FinishTimely(s, slot, t, parallelism, maxRun);
      case PurgeHash(hash) => PurgeTimely(s, hash, t, parallelism, maxRun);
    }
  }

  // Main results

  /**
   * Admission is sound list scheduling: every job that starts does so within the backlog
   * estimate for the position it was pushed at, whatever is purged or pushed meanwhile.
   */
  lemma StartsWithinBacklogEstimate(
    states: seq<State>, events: seq<Event>, parallelism: nat, maxRun: nat, i: nat, started: Started)
    requires parallelism >= 1 && Run(states, events, parallelism, maxRun) && i < |states|
    requires started in states[i].log
    ensures started.at <= started.job.pushedAt + EstimateBacklogMs(started.job.position, maxRun, parallelism)
  {
    RunTimely(states, events, parallelism, maxRun, i);
  }

  /** A job still waiting is not overdue either. */
  lemma WaitsWithinBacklogEstimate(
    states: seq<State>, events: seq<Event>, parallelism: nat, maxRun: nat, i: nat, p: nat)
    requires parallelism >= 1 && Run(states, events, parallelism, maxRun) && i < |states| && p < |states[i].fifo|
    ensures var w := states[i].fifo[p];
            states[i].now <= w.pushedAt + EstimateBacklogMs(w.position, maxRun, parallelism)
  {
    RunTimely(states, events, parallelism, maxRun, i);
    var s := states[i];
    var w := s.fifo[p];
    assert WaitingOk(s, p, maxRun);
    var m := CeilDiv(w.position, parallelism);
    if forall j :: 0 <= j < parallelism ==> s.starts[j] >= w.base[j] + m {
      SumAtLeast(s.starts, w.base, m);
    } else {
      var j :| 0 <= j < parallelism && s.starts[j] < w.base[j] + m;
      assert SlotOnTime(s, w, j, maxRun);
      Distribute(s.starts[j] - w.base[j], m, maxRun);
      Distribute(s.starts[j] - w.base[j] + 1, m, maxRun);
    }
  }

  /**
   * The configured cap holds for a job whenever the FIFO did not grow between its admission
   * check and its push.
   */
  lemma StartsWithinCap(
    states: seq<State>, events: seq<Event>, parallelism: nat, maxRun: nat, i: nat, started: Started, avgMs: nat,
    maxBacklogMs: nat)
    requires parallelism >= 1 && Run(states, events, parallelism, maxRun) && i < |states|
    requires started in states[i].log && maxRun <= avgMs
    requires EstimateBacklogMs(started.job.checked + 1, avgMs, parallelism) <= maxBacklogMs
    requires started.job.position <= started.job.checked + 1
    ensures started.at <= started.job.pushedAt + maxBacklogMs
  {
    StartsWithinBacklogEstimate(states, events, parallelism, maxRun, i, started);
    BacklogMonotone(started.job.position, started.job.checked + 1, maxRun, avgMs, parallelism);
  }

  lemma BacklogMonotone(p: nat, q: nat, a: nat, b: nat, k: nat)
    requires k >= 1 && p <= q && a <= b
    ensures EstimateBacklogMs(p, a, k) <= EstimateBacklogMs(q, b, k)
  {
    var x: int, y: int := CeilDiv(p, k), CeilDiv(q, k);
    MulLess(x - 1, y, k);
    Distribute(x, y, a);
    assert (b - a) * y >= 0;
  }

  /** The wait reported to the caller is within one average run below the bound. */
  lemma ReportedWaitBrackets(position: nat, avgMs: nat, parallelism: nat)
    requires parallelism >= 1 && position >= 1
    ensures EstimateWaitMs(position, avgMs, parallelism) <= EstimateBacklogMs(position, avgMs, parallelism)
    ensures EstimateBacklogMs(position, avgMs, parallelism) <= EstimateWaitMs(position, avgMs, parallelism) + avgMs
  {
    var x: int, y: int := CeilDiv(position - 1, parallelism), CeilDiv(position, parallelism);
    MulLess(x - 1, y, parallelism);
    Distribute(x, y, avgMs);
    Distribute(x, y, parallelism);
    MulLess(y - 1, x + 1, parallelism);
    Distribute(y, x + 1, avgMs);
  }
}
