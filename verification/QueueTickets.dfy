/** Untimed facts of the queue under any interleaving: conservation of jobs and start order. */
module QueueTickets {
  import opened Wrappers
  import opened Admission

  ghost predicate Increasing(fifo: seq<Waiting>) {
    forall p, q :: 0 <= p < q < |fifo| ==> fifo[p].ticket < fifo[q].ticket
  }

  ghost predicate DistinctHeld(slots: seq<Option<Holding>>) {
    forall i, j :: 0 <= i < j < |slots| && slots[i].Some? && slots[j].Some? ==>
      slots[i].value.ticket != slots[j].value.ticket
  }

  /** Every ticket ever handed out is in exactly one of four places. */
  ghost predicate Conserved(s: State) {
    && (forall n: nat :: n < s.nextTicket <==>
          n in Tickets(s.fifo) || n in HeldTickets(s.slots) || n in s.finished || n in s.purged)
    && Tickets(s.fifo) !! HeldTickets(s.slots) && Tickets(s.fifo) !! s.finished && Tickets(s.fifo) !! s.purged
    && HeldTickets(s.slots) !! s.finished && HeldTickets(s.slots) !! s.purged && s.finished !! s.purged
    && DistinctHeld(s.slots)
  }

  ghost predicate LogInOrder(s: State) {
    && (forall p, q :: 0 <= p < q < |s.log| ==> s.log[p].job.ticket < s.log[q].job.ticket)
    && (forall p, q :: 0 <= p < |s.log| && 0 <= q < |s.fifo| ==> s.log[p].job.ticket < s.fifo[q].ticket)
    && (forall p :: 0 <= p < |s.log| ==> s.log[p].job.ticket < s.nextTicket)
    && (forall q :: 0 <= q < |s.fifo| ==> s.fifo[q].ticket < s.nextTicket)
    && Increasing(s.fifo)
  }

  lemma {:induction false} KeptTickets(fifo: seq<Waiting>, hash: string)
    requires Increasing(fifo)
    ensures Increasing(Keep(fifo, hash)) && Tickets(Keep(fifo, hash)) <= Tickets(fifo)
    ensures forall w :: w in Keep(fifo, hash) <==> w in fifo && w.hash != hash
  {
    if fifo == [] {
    } else {
      KeptTickets(fifo[1..], hash);
      assert fifo == [fifo[0]] + fifo[1..];
      forall w | w in Keep(fifo[1..], hash)
        ensures fifo[0].ticket < w.ticket
      {
        assert w in fifo[1..];
      }
    }
  }

  lemma FirstTicket(fifo: seq<Waiting>)
    requires fifo != [] && Increasing(fifo)
    ensures Tickets(fifo[1..]) == Tickets(fifo) - {fifo[0].ticket} && fifo[0].ticket in Tickets(fifo)
  {
    assert fifo == [fifo[0]] + fifo[1..];
    assert fifo[0] in fifo;
  }

  lemma AppendTicket(fifo: seq<Waiting>, w: Waiting)
    ensures Tickets(fifo + [w]) == Tickets(fifo) + {w.ticket}
  {
    assert w in fifo + [w];
  }

  lemma HeldAfterTake(slots: seq<Option<Holding>>, i: nat, h: Holding)
    requires i < |slots| && slots[i].None?
    ensures HeldTickets(slots[i := Some(h)]) == HeldTickets(slots) + {h.ticket}
  {
    var t := slots[i := Some(h)];
    assert t[i] in t;
    forall n | n in HeldTickets(slots)
      ensures n in HeldTickets(t)
    {
      var k :| 0 <= k < |slots| && slots[k].Some? && slots[k].value.ticket == n;
      assert t[k] in t;
    }
  }

  lemma HeldAfterFree(slots: seq<Option<Holding>>, i: nat)
    requires i < |slots| && slots[i].Some? && DistinctHeld(slots)
    ensures HeldTickets(slots[i := None]) == HeldTickets(slots) - {slots[i].value.ticket}
    ensures slots[i].value.ticket in HeldTickets(slots)
  {
    var t := slots[i := None];
    assert slots[i] in slots;
    forall n | n in HeldTickets(slots) && n != slots[i].value.ticket
      ensures n in HeldTickets(t)
    {
      var k :| 0 <= k < |slots| && slots[k].Some? && slots[k].value.ticket == n;
      assert t[k] in t;
    }
    forall n | n in HeldTickets(t)
      ensures n in HeldTickets(slots) && n != slots[i].value.ticket
    {
      var k :| 0 <= k < |t| && t[k].Some? && t[k].value.ticket == n;
      assert slots[k] in slots;
    }
  }

  lemma DrainConserves(s: State, i: nat, t: State, maxRun: nat)
    requires Conserved(s) && Increasing(s.fifo) && Step(s, DrainOne(i), t, maxRun)
    ensures Conserved(t)
  {
    FirstTicket(s.fifo);
    HeldAfterTake(s.slots, i, t.slots[i].value);
    TakenStaysDistinct(s, i);
  }

  lemma FinishConserves(s: State, i: nat, t: State, maxRun: nat)
    requires Conserved(s) && Step(s, Finish(i), t, maxRun)
    ensures Conserved(t)
  {
    HeldAfterFree(s.slots, i);
  }

  lemma PushConserves(s: State, hash: string, checked: nat, t: State, maxRun: nat)
    requires Conserved(s) && Step(s, Push(hash, checked), t, maxRun)
    ensures Conserved(t)
  {
    AppendTicket(s.fifo, t.fifo[|s.fifo|]);
  }

  lemma StepConserves(s: State, e: Event, t: State, maxRun: nat)
    requires Conserved(s) && LogInOrder(s) && Step(s, e, t, maxRun)
    ensures Conserved(t) && LogInOrder(t)
  {
    match e
    case Tick(dt) =>
    case Push(hash, checked) => PushConserves(s, hash, checked, t, maxRun);
    case DrainOne(i) => DrainConserves(s, i, t, maxRun);
    case Finish(i) => FinishConserves(s, i, t, maxRun);
    case PurgeHash(hash) => KeptTickets(s.fifo, hash); PurgeKeepsOrder(s, hash);
  }

  lemma TakenStaysDistinct(s: State, i: nat)
    requires Conserved(s) && i < |s.slots| && s.fifo != []
    ensures DistinctHeld(s.slots[i := Some(Holding(s.fifo[0].ticket, s.now))])
  {
    assert s.fifo[0] in s.fifo;
    assert s.fifo[0].ticket in Tickets(s.fifo);
    forall j | 0 <= j < |s.slots| && s.slots[j].Some?
      ensures s.slots[j].value.ticket != s.fifo[0].ticket
    {
      assert s.slots[j] in s.slots;
      assert s.slots[j].value.ticket in HeldTickets(s.slots);
    }
  }

  lemma PurgeKeepsOrder(s: State, hash: string)
    requires LogInOrder(s)
    ensures LogInOrder(s.(fifo := Keep(s.fifo, hash)))
  {
    KeptTickets(s.fifo, hash);
    var kept := Keep(s.fifo, hash);
    forall q | 0 <= q < |kept|
      ensures kept[q] in s.fifo
    {
      assert kept[q] in kept;
    }
  }

  lemma {:induction false} RunConserves(states: seq<State>, events: seq<Event>, parallelism: nat, maxRun: nat, i: nat)
    requires Run(states, events, parallelism, maxRun) && i < |states|
    ensures Conserved(states[i]) && LogInOrder(states[i])
    decreases i
  {
    if i == 0 {
      assert HeldTickets(states[0].slots) == {};
    } else {
      RunConserves(states, events, parallelism, maxRun, i - 1);
      StepConserves(states[i - 1], events[i - 1], states[i], maxRun);
    }
  }

  /** No job is lost or duplicated: waiting, working, finished or purged, exactly one of them. */
  lemma EveryJobInOnePlace(states: seq<State>, events: seq<Event>, parallelism: nat, maxRun: nat, i: nat, ticket: nat)
    requires Run(states, events, parallelism, maxRun) && i < |states| && ticket < states[i].nextTicket
    ensures var s := states[i];
            && (ticket in Tickets(s.fifo) || ticket in HeldTickets(s.slots) || ticket in s.finished || ticket in s.purged)
            && (ticket in Tickets(s.fifo) ==> ticket !in HeldTickets(s.slots) && ticket !in s.finished && ticket !in s.purged)
            && (ticket in HeldTickets(s.slots) ==> ticket !in s.finished && ticket !in s.purged)
            && (ticket in s.finished ==> ticket !in s.purged)
  {
    RunConserves(states, events, parallelism, maxRun, i);
  }

  /** Jobs start in the order they were pushed. */
  lemma StartsInPushOrder(states: seq<State>, events: seq<Event>, parallelism: nat, maxRun: nat, i: nat, p: nat, q: nat)
    requires Run(states, events, parallelism, maxRun) && i < |states| && p < q < |states[i].log|
    ensures states[i].log[p].job.ticket < states[i].log[q].job.ticket
  {
    RunConserves(states, events, parallelism, maxRun, i);
  }

  // The counter behind the slots

  /** `runningCount`: how many slots are taken. */
  function Taken(slots: seq<Option<Holding>>): (n: nat)
    ensures n <= |slots|
  {
    if slots == [] then 0 else Taken(slots[..|slots| - 1]) + if slots[|slots| - 1].Some? then 1 else 0
  }

  lemma {:induction false} TakenAfterUpdate(slots: seq<Option<Holding>>, i: nat, v: Option<Holding>)
    requires i < |slots|
    ensures Taken(slots[i := v]) == Taken(slots) - (if slots[i].Some? then 1 else 0) + (if v.Some? then 1 else 0)
  {
    var n := |slots| - 1;
    if i < n {
      TakenAfterUpdate(slots[..n], i, v);
      assert slots[i := v][..n] == slots[..n][i := v];
    } else {
      assert slots[i := v][..n] == slots[..n];
    }
  }

  lemma {:induction false} FreeIffBelow(slots: seq<Option<Holding>>)
    ensures (exists i :: 0 <= i < |slots| && slots[i].None?) <==> Taken(slots) < |slots|
  {
    if slots == [] {
    } else {
      var n := |slots| - 1;
      FreeIffBelow(slots[..n]);
      assert forall i :: 0 <= i < n ==> slots[..n][i] == slots[i];
    }
  }

  /**
   * The slots stand for the counter: a drain step is due exactly when the counter is below the
   * parallelism and a job waits, it adds one, an end takes one off, nothing else changes it, and
   * it stays within bounds.
   */
  lemma SlotsAreTheCounter(states: seq<State>, events: seq<Event>, parallelism: nat, maxRun: nat, i: nat)
    requires Run(states, events, parallelism, maxRun) && i < |events|
    ensures var s, t, e := states[i], states[i + 1], events[i];
            && Taken(s.slots) <= parallelism
            && (DrainDue(s) <==> Taken(s.slots) < parallelism && s.fifo != [])
            && Taken(t.slots) == Taken(s.slots) + (if e.DrainOne? then 1 else 0) - (if e.Finish? then 1 else 0)
  {
    SlotsStay(states, events, parallelism, maxRun, i);
    FreeIffBelow(states[i].slots);
    match events[i]
    case DrainOne(k) => TakenAfterUpdate(states[i].slots, k, Some(Holding(states[i].fifo[0].ticket, states[i].now)));
    case Finish(k) => TakenAfterUpdate(states[i].slots, k, None);
    case _ =>
  }

  lemma {:induction false} SlotsStay(states: seq<State>, events: seq<Event>, parallelism: nat, maxRun: nat, i: nat)
    requires Run(states, events, parallelism, maxRun) && i < |states|
    ensures |states[i].slots| == parallelism
    decreases i
  {
    if i == 0 {
    } else {
      SlotsStay(states, events, parallelism, maxRun, i - 1);
      assert Step(states[i - 1], events[i - 1], states[i], maxRun);
    }
  }
}
