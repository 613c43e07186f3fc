/**
 * The backlog estimate is the exact bound: for every number of slots and every position there is
 * a run in which the job at that position starts no earlier than the estimate. So the cap holds
 * for a job exactly when the estimate for the position it was pushed at is within the cap.
 */
module AdmissionBound {
  import opened Arithmetic
  import opened Wrappers
  import opened QueueSpec
  import opened Admission
  import Decimal

  // Runs the room layer lets happen

  ghost predicate BusyWith(s: State, hash: string) {
    || (exists p :: 0 <= p < |s.fifo| && s.fifo[p].hash == hash)
    || (exists p :: 0 <= p < |s.log| && s.log[p].job.ticket in HeldTickets(s.slots) && s.log[p].job.hash == hash)
  }

  /** No job is pushed for a hash that has one, waiting or working: the room transaction refuses it. */
  ghost predicate Receivable(states: seq<State>, events: seq<Event>) {
    |states| == |events| + 1 && forall i :: 0 <= i < |events| && events[i].Push? ==> !BusyWith(states[i], events[i].hash)
  }

  /** A run in which every job has a hash of its own, the numeral of its ticket. */
  ghost predicate OwnRun(states: seq<State>, events: seq<Event>, k: nat, maxRun: nat) {
    && Run(states, events, k, maxRun)
    && forall i :: 0 <= i < |events| && events[i].Push? ==> events[i].hash == Decimal.Print(states[i].nextTicket)
  }

  ghost predicate OwnHash(s: State, w: Waiting) {
    w.hash == Decimal.Print(w.ticket) && w.ticket < s.nextTicket
  }

  ghost predicate OwnHashes(s: State) {
    && (forall p :: 0 <= p < |s.fifo| ==> OwnHash(s, s.fifo[p]))
    && (forall p :: 0 <= p < |s.log| ==> OwnHash(s, s.log[p].job))
  }

  lemma {:induction false} KeepOwn(s: State, fifo: seq<Waiting>, hash: string)
    requires forall p :: 0 <= p < |fifo| ==> OwnHash(s, fifo[p])
    ensures forall p :: 0 <= p < |Keep(fifo, hash)| ==> OwnHash(s, Keep(fifo, hash)[p])
  {
    if fifo == [] {
    } else {
      KeepOwn(s, fifo[1..], hash);
    }
  }

  lemma StepKeepsOwn(s: State, e: Event, t: State, maxRun: nat)
    requires OwnHashes(s) && Step(s, e, t, maxRun) && (e.Push? ==> e.hash == Decimal.Print(s.nextTicket))
    ensures OwnHashes(t)
  {
    hide Decimal.Print, Keep;
    if e.PurgeHash? {
      KeepOwn(s, s.fifo, e.hash);
      assert forall w :: OwnHash(s, w) ==> OwnHash(t, w);
    } else {
      assert forall w :: OwnHash(s, w) ==> OwnHash(t, w);
    }
  }

  lemma {:induction false} OwnRunKeeps(states: seq<State>, events: seq<Event>, k: nat, maxRun: nat, i: nat)
    requires OwnRun(states, events, k, maxRun) && i < |states|
    ensures OwnHashes(states[i])
    decreases i
  {
    hide Decimal.Print, Step;
    if i == 0 {
    } else {
      OwnRunKeeps(states, events, k, maxRun, i - 1);
      StepKeepsOwn(states[i - 1], events[i - 1], states[i], maxRun);
    }
  }

  lemma OwnRunIsReceivable(states: seq<State>, events: seq<Event>, k: nat, maxRun: nat)
    requires OwnRun(states, events, k, maxRun)
    ensures Run(states, events, k, maxRun) && Receivable(states, events)
  {
    hide Decimal.Print, Step, HeldTickets;
    forall i | 0 <= i < |events| && events[i].Push?
      ensures !BusyWith(states[i], events[i].hash)
    {
      OwnRunKeeps(states, events, k, maxRun, i);
      OwnTicketIsFree(states[i], events[i].hash);
    }
  }

  lemma OwnTicketIsFree(s: State, hash: string)
    requires OwnHashes(s) && hash == Decimal.Print(s.nextTicket)
    ensures !BusyWith(s, hash)
  {
    hide Decimal.Print;
    forall w | OwnHash(s, w)
      ensures w.hash != hash
    {
      if w.hash == hash {
        Decimal.PrintInjective(w.ticket, s.nextTicket);
      }
    }
    assert forall p :: 0 <= p < |s.fifo| ==> OwnHash(s, s.fifo[p]);
    assert forall p :: 0 <= p < |s.log| ==> OwnHash(s, s.log[p].job);
  }

  // The tight run

  lemma Extend(states: seq<State>, events: seq<Event>, k: nat, maxRun: nat, e: Event)
      returns (states': seq<State>, events': seq<Event>)
    requires OwnRun(states, events, k, maxRun) && Enabled(states[|events|], e, maxRun)
    requires e.Push? ==> e.hash == Decimal.Print(states[|events|].nextTicket)
    ensures OwnRun(states', events', k, maxRun) && |states'| == |events'| + 1
    ensures states'[|events'|] == Next(states[|events|], e, maxRun) && states <= states'
  {
    states', events' := states + [Next(states[|events|], e, maxRun)], events + [e];
  }

  /** The first `n` slots began their work now, the others are `rest`. */
  ghost predicate Began(s: State, k: nat, n: nat) {
    |s.slots| == |s.starts| == k && n <= k && forall i :: 0 <= i < n ==> s.slots[i].Some? && s.slots[i].value.since == s.now
  }

  lemma {:induction false} FillSlots(k: nat, maxRun: nat, n: nat) returns (states: seq<State>, events: seq<Event>)
    requires n <= k
    ensures OwnRun(states, events, k, maxRun) && |states| == |events| + 1
    ensures var s := states[|events|];
            Began(s, k, n) && s.now == 0 && s.fifo == [] && forall i :: n <= i < k ==> s.slots[i].None?
  {
    hide OwnRun;
    if n == 0 {
      states, events := [State(0, seq(k, _ => None), seq(k, _ => 0), [], 0, [], {}, {})], [];
      assert OwnRun(states, events, k, maxRun) by {
        StartsARun(states[0], k, maxRun);
      }
    } else {
      states, events := FillSlots(k, maxRun, n - 1);
      states, events := Extend(states, events, k, maxRun, Push(Decimal.Print(states[|events|].nextTicket), 0));
      states, events := Extend(states, events, k, maxRun, DrainOne(n - 1));
    }
  }

  lemma StartsARun(s: State, k: nat, maxRun: nat)
    requires Initial(s, k)
    ensures OwnRun([s], [], k, maxRun)
  {
  }

  /** All slots just taken and `n` jobs behind them, the last of which saw an empty FIFO when admitted. */
  lemma {:induction false} PushJobs(k: nat, maxRun: nat, n: nat) returns (states: seq<State>, events: seq<Event>, seen: nat)
    ensures OwnRun(states, events, k, maxRun) && |states| == |events| + 1
    ensures seen < |states| && states[seen].fifo == [] && states[seen].now == 0
    ensures var s := states[|events|];
            && Began(s, k, k) && s.now == 0 && |s.fifo| == n
            && (n > 0 ==> s.fifo[n - 1].position == n && s.fifo[n - 1].pushedAt == 0 && s.fifo[n - 1].checked == 0)
  {
    hide OwnRun;
    if n == 0 {
      states, events := FillSlots(k, maxRun, k);
      seen := |events|;
    } else {
      states, events, seen := PushJobs(k, maxRun, n - 1);
      ghost var before := states;
      states, events := Extend(states, events, k, maxRun, Push(Decimal.Print(states[|events|].nextTicket), 0));
      assert states[seen] == before[seen];
    }
  }

  /** At one moment the first `n` slots end their work and take the first `n` waiting jobs. */
  lemma {:induction false} Refresh(states: seq<State>, events: seq<Event>, k: nat, maxRun: nat, n: nat)
      returns (states': seq<State>, events': seq<Event>)
    requires OwnRun(states, events, k, maxRun) && |states| == |events| + 1
    requires var s := states[|events|];
             |s.slots| == |s.starts| == k && n <= k && n <= |s.fifo| && forall i :: 0 <= i < k ==> s.slots[i].Some?
    ensures OwnRun(states', events', k, maxRun) && |states'| == |events'| + 1 && states <= states'
    ensures var s, t := states[|events|], states'[|events'|];
            && Began(t, k, n) && t.now == s.now && t.fifo == s.fifo[n..] && (forall i :: 0 <= i < k ==> t.slots[i].Some?)
            && (n > 0 ==> Started(s.fifo[n - 1], s.now) in t.log)
  {
    hide OwnRun;
    if n == 0 {
      states', events' := states, events;
    } else {
      states', events' := Refresh(states, events, k, maxRun, n - 1);
      ghost var s, t := states[|events|], states'[|events'|];
      assert t.fifo[0] == s.fifo[n - 1] && t.fifo[1..] == s.fifo[n..];
      states', events' := Extend(states', events', k, maxRun, Finish(n - 1));
      states', events' := Extend(states', events', k, maxRun, DrainOne(n - 1));
      assert states'[|events'|].log == t.log + [Started(s.fifo[n - 1], s.now)];
    }
  }

  lemma CeilOfMore(n: nat, k: nat)
    requires 1 <= k < n
    ensures CeilDiv(n, k) == 1 + CeilDiv(n - k, k)
  {
    hide CeilDiv;
    var x: int, r: int := CeilDiv(n - k, k), CeilDiv(n, k);
    Distribute(x - 1, x, k);
    Distribute(x, x, k);
    MulLess(x, r, k);
    MulLess(r - 1, x + 1, k);
  }

  lemma CeilOfFew(n: nat, k: nat)
    requires 1 <= n <= k
    ensures CeilDiv(n, k) == 1
  {
    hide CeilDiv;
    var r: int := CeilDiv(n, k);
    MulLess(0, r, k);
    MulLess(r - 1, 1, k);
  }

  /** Round after round of full runs, the last waiting job starts at the estimate for its index. */
  lemma {:induction false} Rounds(states: seq<State>, events: seq<Event>, k: nat, maxRun: nat, n: nat)
      returns (states': seq<State>, events': seq<Event>)
    requires k >= 1 && n >= 1 && OwnRun(states, events, k, maxRun) && |states| == |events| + 1
    requires var s := states[|events|]; Began(s, k, k) && |s.fifo| == n
    ensures OwnRun(states', events', k, maxRun) && |states'| == |events'| + 1 && states <= states'
    ensures var s := states[|events|];
            Started(s.fifo[n - 1], s.now + CeilDiv(n, k) * maxRun) in states'[|events'|].log
    decreases n
  {
    hide OwnRun, CeilDiv;
    ghost var s := states[|events|];
    states', events' := Extend(states, events, k, maxRun, Tick(maxRun));
    if n <= k {
      CeilOfFew(n, k);
      states', events' := Refresh(states', events', k, maxRun, n);
    } else {
      CeilOfMore(n, k);
      states', events' := Refresh(states', events', k, maxRun, k);
      assert states'[|events'|].fifo[n - k - 1] == s.fifo[n - 1];
      Distribute(1, CeilDiv(n - k, k), maxRun);
      assert CeilDiv(n, k) * maxRun == maxRun + CeilDiv(n - k, k) * maxRun;
      states', events' := Rounds(states', events', k, maxRun, n - k);
    }
  }

  /** For every position some run the room layer lets happen makes the job there wait for exactly its backlog estimate. */
  lemma BoundIsTight(k: nat, maxRun: nat, n: nat)
      returns (states: seq<State>, events: seq<Event>, started: Started, seen: nat)
    requires k >= 1 && n >= 1
    ensures Run(states, events, k, maxRun) && Receivable(states, events) && started in states[|events|].log
    ensures started.job.position == n && started.at == started.job.pushedAt + EstimateBacklogMs(n, maxRun, k)
    ensures seen < |states| && |states[seen].fifo| == started.job.checked == 0 && states[seen].now == started.job.pushedAt
  {
    hide OwnRun, Run, Receivable, CeilDiv;
    var before: seq<State>;
    before, events, seen := PushJobs(k, maxRun, n);
    started := Started(before[|events|].fifo[n - 1], CeilDiv(n, k) * maxRun);
    states, events := Rounds(before, events, k, maxRun, n);
    assert states[seen] == before[seen];
    OwnRunIsReceivable(states, events, k, maxRun);
  }

  /** Whatever happens, a job pushed at position `n` that starts does so within the cap. */
  ghost predicate AlwaysWithin(k: nat, maxRun: nat, n: nat, cap: nat) {
    forall states: seq<State>, events: seq<Event>, i: nat, started: Started ::
      Run(states, events, k, maxRun) && Receivable(states, events)
      && i < |states| && started in states[i].log && started.job.position == n ==>
        started.at <= started.job.pushedAt + cap
  }

  /** The cap is kept for a position exactly when the backlog estimate for that position is within it. */
  lemma CapKeptIff(k: nat, maxRun: nat, n: nat, cap: nat)
    requires k >= 1 && n >= 1
    ensures AlwaysWithin(k, maxRun, n, cap) <==> EstimateBacklogMs(n, maxRun, k) <= cap
  {
    hide EstimateBacklogMs, Run;
    if EstimateBacklogMs(n, maxRun, k) <= cap {
      forall states: seq<State>, events: seq<Event>, i: nat, started: Started |
        Run(states, events, k, maxRun) && Receivable(states, events)
        && i < |states| && started in states[i].log && started.job.position == n
        ensures started.at <= started.job.pushedAt + cap
      {
        StartsWithinBacklogEstimate(states, events, k, maxRun, i, started);
      }
    } else {
      var states, events, started, seen := BoundIsTight(k, maxRun, n);
      assert started in states[|events|].log;
    }
  }

  /**
   * The admission check looks at the FIFO's length before an await, the push takes the length
   * after it. A check that saw an empty FIFO, passed, and pushed at position `n` breaks the cap as
   * soon as the estimate for `n` exceeds it.
   */
  lemma CheckBeforeAwaitCanOvershoot(k: nat, maxRun: nat, n: nat, cap: nat)
      returns (states: seq<State>, events: seq<Event>, started: Started, seen: nat)
    requires k >= 1 && n >= 1 && EstimateBacklogMs(1, maxRun, k) <= cap < EstimateBacklogMs(n, maxRun, k)
    ensures Run(states, events, k, maxRun) && Receivable(states, events) && started in states[|events|].log
    ensures seen < |states| && |states[seen].fifo| == started.job.checked
    ensures EstimateBacklogMs(started.job.checked + 1, maxRun, k) <= cap && started.at > started.job.pushedAt + cap
  {
    hide EstimateBacklogMs, Run;
    states, events, started, seen := BoundIsTight(k, maxRun, n);
  }
}
