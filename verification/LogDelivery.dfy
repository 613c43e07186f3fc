/**
 * One hash's log lines between two resets: the worker's lines go through a chain that persists
 * one line at a time, numbers it, and broadcasts it; a client registers for broadcasts and then
 * replays what is stored after the last line it knows. Steps are single awaits.
 */
module LogDelivery {
  import opened Wrappers

  const REPLAY_MAX_LINES: nat := 500

  /** Where the chain stands: idle, or with one line whose number was read, or committed. */
  datatype Chain =
    | Resting
    | Started(line: string)
    | Numbered(line: string, next: nat)
    | Stored(line: string, number: nat)

  /** `seen`: the lines broadcast before the client registered; `replayed`: the last one stored when it replayed. */
  datatype Client = Client(after: nat, seen: set<nat>, replayed: Option<nat>, received: map<nat, string>)

  /**
   * `finished` tells for each line the chain is done with whether it was stored; `rows` and `last`
   * are the log table and the hash's counter. `sent` are the lines broadcast, `lost` those stored
   * by a COMMIT whose answer never came, which skips the broadcast.
   */
  datatype State = State(
    emitted: seq<string>, finished: seq<(string, bool)>, chain: Chain, queue: seq<string>,
    rows: map<nat, string>, last: nat, sent: set<nat>, lost: set<nat>, clients: map<nat, Client>)

  datatype Event =
    | Emit(line: string)
    | Start
    | ReadNumber
    | CommitLine
    | CommitUnanswered
    | AppendFails
    | Broadcast
    | Register(client: nat, after: nat)
    | Replay(client: nat)
    | Disconnect(client: nat)

  function Min(a: nat, b: nat): nat {
    if a < b then a else b
  }

  ghost predicate Enabled(s: State, e: Event) {
    match e
    case Emit(_) => true
    case Start => s.chain.Resting? && s.queue != []
    case ReadNumber => s.chain.Started?
    case CommitLine => s.chain.Numbered? && s.chain.next !in s.rows
    case CommitUnanswered => s.chain.Numbered? && s.chain.next !in s.rows
    case AppendFails => s.chain.Started? || s.chain.Numbered?
    case Broadcast => s.chain.Stored?
    case Register(i, _) => i !in s.clients
    case Replay(i) => i in s.clients && s.clients[i].replayed.None?
    case Disconnect(i) => i in s.clients
  }

  /** The stored lines above `after`, oldest first, at most as many as the replay sends. */
  ghost function ReplayRows(s: State, after: nat): map<nat, string> {
    map k | k in s.rows && after < k <= after + REPLAY_MAX_LINES :: s.rows[k]
  }

  /** The row and the counter after the COMMIT. */
  ghost function Stores(s: State): State
    requires s.chain.Numbered?
  {
    s.(finished := s.finished + [(s.chain.line, true)], rows := s.rows[s.chain.next := s.chain.line], last := s.chain.next)
  }

  ghost function Sent(s: State, number: nat, line: string): map<nat, Client> {
    map i | i in s.clients :: s.clients[i].(received := s.clients[i].received[number := line])
  }

  ghost function Next(s: State, e: Event): State
    requires Enabled(s, e)
  {
    match e
    case Emit(line) => s.(emitted := s.emitted + [line], queue := s.queue + [line])
    case Start => s.(chain := Started(s.queue[0]), queue := s.queue[1..])
    case ReadNumber => s.(chain := Numbered(s.chain.line, s.last + 1))
    case CommitLine => Stores(s).(chain := Stored(s.chain.line, s.chain.next))
    case CommitUnanswered => Stores(s).(chain := Resting, lost := s.lost + {s.chain.next})
    case AppendFails => s.(chain := Resting, finished := s.finished + [(s.chain.line, false)])
    case Broadcast =>
      s.(chain := Resting, sent := s.sent + {s.chain.number}, clients := Sent(s, s.chain.number, s.chain.line))
    case Register(i, after) => s.(clients := s.clients[i := Client(after, s.sent, None, map[])])
    case Replay(i) =>
      var c := s.clients[i];
      s.(clients := s.clients[i := c.(replayed := Some(s.last), received := c.received + ReplayRows(s, c.after))])
    case Disconnect(i) => s.(clients := s.clients - {i})
  }

  ghost predicate Run(states: seq<State>, events: seq<Event>) {
    && |states| == |events| + 1 && states[0] == State([], [], Resting, [], map[], 0, {}, {}, map[])
    && forall i :: 0 <= i < |events| ==> Enabled(states[i], events[i]) && states[i + 1] == Next(states[i], events[i])
  }

  // What holds throughout

  /** The lines of the finished ones that were stored. */
  ghost function Kept(finished: seq<(string, bool)>): seq<string> {
    if finished == [] then []
    else
      var rest, f := Kept(finished[..|finished| - 1]), finished[|finished| - 1];
      if f.1 then rest + [f.0] else rest
  }

  ghost function Lines(finished: seq<(string, bool)>): seq<string> {
    seq(|finished|, i requires 0 <= i < |finished| => finished[i].0)
  }

  /** The line the chain works on and has not finished. */
  ghost function Working(chain: Chain): seq<string> {
    if chain.Started? || chain.Numbered? then [chain.line] else []
  }

  /** Row `k` is the `k`-th line stored, and there are no others. */
  ghost predicate Dense(s: State) {
    var kept := Kept(s.finished);
    && s.last == |kept|
    && (forall k :: k in s.rows <==> 1 <= k <= s.last)
    && (forall k :: 1 <= k <= s.last ==> s.rows[k] == kept[k - 1])
  }

  ghost predicate IsRow(s: State, k: nat, line: string) {
    k in s.rows && s.rows[k] == line
  }

  ghost predicate ChainOk(s: State) {
    && s.emitted == Lines(s.finished) + Working(s.chain) + s.queue
    && (s.chain.Numbered? ==> s.chain.next == s.last + 1)
    && (s.chain.Stored? ==> s.chain.number == s.last && IsRow(s, s.last, s.chain.line))
  }

  /** Stored, and its broadcast still to come. */
  ghost predicate Awaits(s: State, k: nat) {
    s.chain.Stored? && s.chain.number == k
  }

  /** A stored line was broadcast, lost its answer or awaits its broadcast, exactly one of them. */
  ghost predicate SentOk(s: State) {
    && s.sent !! s.lost
    && (forall k :: k in s.rows <==> k in s.sent || k in s.lost || Awaits(s, k))
    && (forall k :: Awaits(s, k) ==> k !in s.sent && k !in s.lost)
  }

  /** A client holds what was broadcast since it registered, and its replay. */
  ghost predicate ClientOk(s: State, c: Client) {
    && c.seen <= s.sent
    && (c.replayed.Some? ==> c.replayed.value <= s.last && forall k :: k in c.seen ==> k <= c.replayed.value)
    && (forall k :: k in c.received <==>
         ((k in s.sent && k !in c.seen)
          || (c.replayed.Some? && c.after < k <= Min(c.after + REPLAY_MAX_LINES, c.replayed.value))))
    && (forall k :: k in c.received ==> IsRow(s, k, c.received[k]))
  }

  ghost predicate Inv(s: State) {
    Dense(s) && ChainOk(s) && SentOk(s) && forall i :: i in s.clients ==> ClientOk(s, s.clients[i])
  }

  lemma KeptSnoc(finished: seq<(string, bool)>, line: string, stored: bool)
    ensures Kept(finished + [(line, stored)]) == if stored then Kept(finished) + [line] else Kept(finished)
    ensures Lines(finished + [(line, stored)]) == Lines(finished) + [line]
  {
    assert (finished + [(line, stored)])[..|finished|] == finished;
  }

  lemma FinishingKeeps(s: State, e: Event)
    requires Dense(s) && ChainOk(s) && Enabled(s, e) && (e.CommitLine? || e.CommitUnanswered? || e.AppendFails?)
    ensures Dense(Next(s, e)) && ChainOk(Next(s, e))
  {
    hide Lines, Kept;
    KeptSnoc(s.finished, s.chain.line, !e.AppendFails?);
  }

  lemma ChainKeeps(s: State, e: Event)
    requires Dense(s) && ChainOk(s) && Enabled(s, e)
    ensures Dense(Next(s, e)) && ChainOk(Next(s, e))
  {
    hide Lines, Kept;
    if e.CommitLine? || e.CommitUnanswered? || e.AppendFails? {
      FinishingKeeps(s, e);
    }
  }

  lemma SentKeeps(s: State, e: Event)
    requires Dense(s) && ChainOk(s) && SentOk(s) && Enabled(s, e)
    ensures SentOk(Next(s, e))
  {
    hide Kept, Lines;
    if e.Broadcast? {
      assert Awaits(s, s.chain.number);
    }
  }

  /** Rows stay, and what was sent only grows. */
  ghost predicate Later(s: State, t: State) {
    s.sent <= t.sent && s.last <= t.last && forall k :: k in s.rows ==> k in t.rows && t.rows[k] == s.rows[k]
  }

  lemma StepIsLater(s: State, e: Event)
    requires Dense(s) && ChainOk(s) && Enabled(s, e)
    ensures Later(s, Next(s, e))
    ensures !e.Broadcast? ==> Next(s, e).sent == s.sent
  {
    hide Kept, Lines;
  }

  lemma UntouchedClientKeeps(s: State, t: State, c: Client)
    requires ClientOk(s, c) && Later(s, t) && t.sent == s.sent
    ensures ClientOk(t, c)
  {
  }

  lemma BroadcastKeeps(s: State, c: Client, number: nat, line: string, t: State)
    requires ClientOk(s, c) && number !in s.sent && IsRow(s, number, line)
    requires t.sent == s.sent + {number} && t.last == s.last && t.rows == s.rows
    ensures ClientOk(t, c.(received := c.received[number := line]))
  {
  }

  lemma ReplayKeeps(s: State, c: Client)
    requires ClientOk(s, c) && c.replayed.None? && forall k :: k in s.sent ==> k <= s.last
    requires forall k :: k in s.rows <==> 1 <= k <= s.last
    ensures ClientOk(s, c.(replayed := Some(s.last), received := c.received + ReplayRows(s, c.after)))
  {
  }

  lemma ClientKeeps(s: State, e: Event, i: nat)
    requires Inv(s) && Enabled(s, e) && i in s.clients && i in Next(s, e).clients
    ensures ClientOk(Next(s, e), Next(s, e).clients[i])
  {
    hide Kept, Lines, ReplayRows, ClientOk, Later;
    var c := s.clients[i];
    assert ClientOk(s, c);
    StepIsLater(s, e);
    if e.Broadcast? {
      assert Awaits(s, s.chain.number);
      BroadcastKeeps(s, c, s.chain.number, s.chain.line, Next(s, e));
    } else if e == Replay(i) {
      ReplayKeeps(s, c);
      UntouchedClientKeeps(s, Next(s, e), Next(s, e).clients[i]);
    } else {
      UntouchedClientKeeps(s, Next(s, e), c);
    }
  }

  lemma NewClientOk(s: State, after: nat)
    ensures ClientOk(s, Client(after, s.sent, None, map[]))
  {
  }

  lemma StepKeeps(s: State, e: Event)
    requires Inv(s) && Enabled(s, e)
    ensures Inv(Next(s, e))
  {
    hide Dense, ChainOk, SentOk, ClientOk;
    ChainKeeps(s, e);
    SentKeeps(s, e);
    forall i | i in Next(s, e).clients
      ensures ClientOk(Next(s, e), Next(s, e).clients[i])
    {
      if i in s.clients {
        ClientKeeps(s, e, i);
      } else {
        NewClientOk(Next(s, e), e.after);
      }
    }
  }

  lemma {:induction false} RunKeeps(states: seq<State>, events: seq<Event>, i: nat)
    requires Run(states, events) && i < |states|
    ensures Inv(states[i])
    decreases i
  {
    if i == 0 {
    } else {
      hide Enabled, Next, Inv;
      RunKeeps(states, events, i - 1);
      StepKeeps(states[i - 1], events[i - 1]);
    }
  }

  /**
   * Numbering: the stored lines are 1, 2, ... without a hole, in the order the worker emitted
   * them, leaving out only lines whose append failed. Each was broadcast, or its COMMIT was never
   * answered, or it is the last one and its broadcast is to come: lines are broadcast in order.
   */
  lemma LinesAreNumberedInOrder(states: seq<State>, events: seq<Event>, i: nat)
    requires Run(states, events) && i < |states|
    ensures var s := states[i];
            && Lines(s.finished) <= s.emitted
            && (forall k :: k in s.rows <==> 1 <= k <= |Kept(s.finished)|)
            && (forall k :: 1 <= k <= |Kept(s.finished)| ==> s.rows[k] == Kept(s.finished)[k - 1])
            && (forall k :: k in s.rows <==> k in s.sent || k in s.lost || Awaits(s, k))
            && (forall k: nat, j: nat :: Awaits(s, k) && (j in s.sent || j in s.lost) ==> j < k)
  {
    RunKeeps(states, events, i);
  }

  /** No line is on its way: each emitted one failed, or is stored and was sent unless its COMMIT was not answered. */
  lemma SettledMeansFinished(states: seq<State>, events: seq<Event>, i: nat)
    requires Run(states, events) && i < |states| && states[i].chain.Resting? && states[i].queue == []
    ensures Lines(states[i].finished) == states[i].emitted
    ensures states[i].rows.Keys == states[i].sent + states[i].lost && states[i].sent !! states[i].lost
  {
    RunKeeps(states, events, i);
    var s := states[i];
    assert forall k :: !Awaits(s, k);
  }

  /**
   * Line by line: a client has line `k` exactly when it was broadcast after the client registered,
   * or it was stored when the client replayed and stood within the cap.
   */
  lemma ReceivedIff(states: seq<State>, events: seq<Event>, i: nat, id: nat, k: nat)
    requires Run(states, events) && i < |states| && id in states[i].clients
    ensures var s, c := states[i], states[i].clients[id];
            k in c.received <==>
              ((k in s.sent && k !in c.seen)
               || (c.replayed.Some? && c.after < k <= Min(c.after + REPLAY_MAX_LINES, c.replayed.value)))
  {
    RunKeeps(states, events, i);
    assert ClientOk(states[i], states[i].clients[id]);
  }

  /** Has every line above the client's starting point that is stored and does not await its broadcast. */
  ghost predicate HasAll(s: State, c: Client) {
    forall k :: k in s.rows && c.after < k && !Awaits(s, k) ==> k in c.received && c.received[k] == s.rows[k]
  }

  /**
   * A client that registered and then replayed misses nothing exactly when no line broadcast before
   * it registered stood beyond the replay's cap, and no line whose COMMIT was not answered stands
   * beyond the cap or was stored after the replay.
   */
  lemma NoGapIff(states: seq<State>, events: seq<Event>, i: nat, id: nat)
    requires Run(states, events) && i < |states|
    requires id in states[i].clients && states[i].clients[id].replayed.Some?
    ensures var s, c := states[i], states[i].clients[id];
            HasAll(s, c) <==>
              && (forall k | k in c.seen :: k <= c.after + REPLAY_MAX_LINES)
              && (forall k | k in s.lost && k > c.after :: k <= Min(c.after + REPLAY_MAX_LINES, c.replayed.value))
  {
    RunKeeps(states, events, i);
    var s, c := states[i], states[i].clients[id];
    assert ClientOk(s, c);
    if HasAll(s, c) {
      forall k | k in c.seen && k > c.after
        ensures k <= c.after + REPLAY_MAX_LINES
      {
        assert k in s.rows && !Awaits(s, k);
      }
      forall k | k in s.lost && k > c.after
        ensures k <= Min(c.after + REPLAY_MAX_LINES, c.replayed.value)
      {
        assert k in s.rows && !Awaits(s, k);
      }
    }
  }

  /** A client never receives a line under another line's number. */
  lemma ReceivedIsStored(states: seq<State>, events: seq<Event>, i: nat, id: nat, k: nat)
    requires Run(states, events) && i < |states|
    requires id in states[i].clients && k in states[i].clients[id].received
    ensures k in states[i].rows && states[i].clients[id].received[k] == states[i].rows[k]
  {
    RunKeeps(states, events, i);
    assert ClientOk(states[i], states[i].clients[id]);
  }

  // One line and one client with nothing in between

  ghost predicate Goes(s: State, e: Event, t: State) {
    Enabled(s, e) && Next(s, e) == t
  }

  /** A chain that is idle takes the next line, gives it the next number, stores it and sends it to every client. */
  lemma LineAlone(s: State, line: string, rest: seq<string>) returns (started: State, numbered: State, stored: State, t: State)
    requires s.chain.Resting? && s.queue == [line] + rest && s.last + 1 !in s.rows
    ensures Goes(s, Start, started) && Goes(started, ReadNumber, numbered) && Goes(numbered, CommitLine, stored)
    ensures Goes(stored, Broadcast, t)
    ensures t.queue == rest && t.chain.Resting? && t.emitted == s.emitted && t.finished == s.finished + [(line, true)]
    ensures t.rows == s.rows[s.last + 1 := line] && t.last == s.last + 1 && t.lost == s.lost
    ensures t.sent == s.sent + {s.last + 1} && t.clients.Keys == s.clients.Keys
    ensures forall i | i in s.clients ::
              t.clients[i] == s.clients[i].(received := s.clients[i].received[s.last + 1 := line])
  {
    assert s.queue[1..] == rest;
    started, numbered := Next(s, Start), Next(Next(s, Start), ReadNumber);
    stored := Next(numbered, CommitLine);
    t := Next(stored, Broadcast);
  }

  /** A line that cannot be stored is given up: the next one gets its number. */
  lemma LineFails(s: State, line: string, rest: seq<string>) returns (started: State, numbered: State)
    requires s.chain.Resting? && s.queue == [line] + rest
    ensures Goes(s, Start, started) && Goes(started, ReadNumber, numbered)
    ensures Goes(started, AppendFails, s.(queue := rest, finished := s.finished + [(line, false)]))
    ensures Goes(numbered, AppendFails, s.(queue := rest, finished := s.finished + [(line, false)]))
  {
    assert s.queue[1..] == rest;
    started, numbered := Next(s, Start), Next(Next(s, Start), ReadNumber);
  }

  /** A line the worker prints joins the end of the chain's queue. */
  lemma EmitAlone(s: State, line: string)
    ensures Goes(s, Emit(line), s.(emitted := s.emitted + [line], queue := s.queue + [line]))
  {
  }

  /** A client that registers and replays has the stored lines after the one it knows, the first 500 of them. */
  lemma ClientAlone(s: State, i: nat, after: nat) returns (registered: State, t: State)
    requires i !in s.clients
    ensures Goes(s, Register(i, after), registered) && Goes(registered, Replay(i), t)
    ensures t == s.(clients := t.clients) && t.clients.Keys == s.clients.Keys + {i}
    ensures forall j | j in s.clients :: t.clients[j] == s.clients[j]
    ensures t.clients[i].after == after && t.clients[i].seen == s.sent && t.clients[i].replayed == Some(s.last)
    ensures forall k :: k in t.clients[i].received <==> k in s.rows && after < k <= after + 500
    ensures forall k | k in t.clients[i].received :: t.clients[i].received[k] == s.rows[k]
  {
    registered := Next(s, Register(i, after));
    t := Next(registered, Replay(i));
  }
}
