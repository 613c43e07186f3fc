/**
 * The migration runner at the grain of single statements: any number of processes, each possibly
 * of an older release that knows fewer files, one advisory lock, transactions, and errors or
 * crashes at every statement.
 */
module Migrations {
  import opened Wrappers

  /**
   * Where one run of the runner stands. `Baselining(i)` has recorded `i` files without applying
   * them; `At` is in the loop, having read `applied` and looked at `next` files; `Begun`, `Ran` and
   * `Recorded` are inside the transaction of file `next`.
   */
  datatype Phase =
    | Waiting
    | Locked
    | Baselining(recorded: nat)
    | Reading
    | At(applied: set<string>, next: nat)
    | Begun(applied: set<string>, next: nat)
    | Ran(applied: set<string>, next: nat)
    | Recorded(applied: set<string>, next: nat)
    | Unlocking(ok: bool)
    | LockLeft
    | Returned(ok: bool)
    | Crashed

  /** `schema` is the history of applied files; `versions` the rows of `schema_migrations`. */
  datatype State = State(schema: seq<string>, versions: set<string>, lock: Option<nat>, phases: map<nat, Phase>)

  /** All files in order, how many of them a process's release ships, and the file that creates the marker table. */
  datatype Setup = Setup(files: seq<string>, shipped: nat -> nat, marker: string)

  ghost predicate ValidSetup(c: Setup) {
    && (forall p :: c.shipped(p) <= |c.files|)
    && (forall i, j :: 0 <= i < j < |c.files| ==> c.files[i] != c.files[j])
  }

  datatype Event =
    | Acquire(p: nat)
    | CheckBaseline(p: nat)
    | RecordBaseline(p: nat)
    | EndBaseline(p: nat)
    | ReadApplied(p: nat)
    | Skip(p: nat)
    | Begin(p: nat)
    | RunSql(p: nat)
    | RecordVersion(p: nat)
    | Commit(p: nat)
    | CommitUnanswered(p: nat)
    | EndLoop(p: nat)
    | Fail(p: nat)
    | Unlock(p: nat)
    | UnlockFails(p: nat)
    | Crash(p: nat)
    | StartAgain(p: nat)

  function PhaseOf(s: State, p: nat): Phase {
    if p in s.phases then s.phases[p] else Waiting
  }

  function Goto(s: State, p: nat, phase: Phase): State {
    s.(phases := s.phases[p := phase])
  }

  function Committed(s: State, file: string): State {
    s.(schema := s.schema + [file], versions := s.versions + {file})
  }

  predicate Holding(phase: Phase) {
    !phase.Waiting? && !phase.Returned? && !phase.Crashed?
  }

  predicate InLoop(phase: Phase) {
    phase.At? || phase.Begun? || phase.Ran? || phase.Recorded?
  }

  /** The file the loop looks at is one the process ships. */
  predicate MoreFiles(c: Setup, p: nat, phase: Phase) {
    InLoop(phase) && phase.next < c.shipped(p) && phase.next < |c.files|
  }

  ghost predicate Enabled(c: Setup, s: State, e: Event) {
    var phase := PhaseOf(s, e.p);
    match e
    case Acquire(_) => phase.Waiting? && s.lock.None?
    case CheckBaseline(_) => phase.Locked?
    case RecordBaseline(p) => phase.Baselining? && phase.recorded < c.shipped(p) && phase.recorded < |c.files|
    case EndBaseline(p) => phase.Baselining? && phase.recorded >= c.shipped(p)
    case ReadApplied(_) => phase.Reading?
    case Skip(p) => phase.At? && MoreFiles(c, p, phase) && c.files[phase.next] in phase.applied
    case Begin(p) => phase.At? && MoreFiles(c, p, phase) && c.files[phase.next] !in phase.applied
    case RunSql(_) => phase.Begun?
    case RecordVersion(_) => phase.Ran?
    case Commit(p) => phase.Recorded? && MoreFiles(c, p, phase)
    case CommitUnanswered(p) => phase.Recorded? && MoreFiles(c, p, phase)
    case EndLoop(p) => phase.At? && phase.next >= c.shipped(p)
    case Fail(_) => Holding(phase) && !phase.Unlocking? && !phase.LockLeft?
    case Unlock(_) => phase.Unlocking?
    case UnlockFails(_) => phase.Unlocking?
    case Crash(_) => !phase.Crashed?
    case StartAgain(_) => phase.Returned? || phase.Crashed?
  }

  ghost function Next(c: Setup, s: State, e: Event): State
    requires Enabled(c, s, e)
  {
    var p, phase := e.p, PhaseOf(s, e.p);
    match e
    case Acquire(_) => Goto(s.(lock := Some(p)), p, Locked)
    case CheckBaseline(_) =>
      // nothing recorded although the last table of the schema is there
      Goto(s, p, if s.versions == {} && c.marker in s.schema then Baselining(0) else Reading)
    case RecordBaseline(_) =>
      Goto(s.(versions := s.versions + {c.files[phase.recorded]}), p, Baselining(phase.recorded + 1))
    case EndBaseline(_) => Goto(s, p, Reading)
    case ReadApplied(_) => Goto(s, p, At(s.versions, 0))
    case Skip(_) => Goto(s, p, At(phase.applied, phase.next + 1))
    case Begin(_) => Goto(s, p, Begun(phase.applied, phase.next))
    case RunSql(_) => Goto(s, p, Ran(phase.applied, phase.next))
    case RecordVersion(_) => Goto(s, p, Recorded(phase.applied, phase.next))
    case Commit(_) => Goto(Committed(s, c.files[phase.next]), p, At(phase.applied, phase.next + 1))
    case CommitUnanswered(_) => Goto(Committed(s, c.files[phase.next]), p, Unlocking(false))
    case EndLoop(_) => Goto(s, p, Unlocking(true))
    case Fail(_) => Goto(s, p, Unlocking(false))
    case Unlock(_) => Goto(s.(lock := None), p, Returned(phase.ok))
    case UnlockFails(_) => Goto(s, p, LockLeft)
    case Crash(_) => Goto(s.(lock := if s.lock == Some(p) then None else s.lock), p, Crashed)
    case StartAgain(_) => Goto(s, p, Waiting)
  }

  ghost predicate Run(c: Setup, states: seq<State>, events: seq<Event>, first: State) {
    && |states| == |events| + 1 && states[0] == first
    && forall i :: 0 <= i < |events| ==> Enabled(c, states[i], events[i]) && states[i + 1] == Next(c, states[i], events[i])
  }

  lemma AreRuns(c: Setup, states: seq<State>, events: seq<Event>, first: State)
    requires Run(c, states, events, first)
    ensures |states| == |events| + 1 && states[0] == first
  {
  }

  // What holds throughout

  ghost function Names(c: Setup, n: nat): set<string>
    requires n <= |c.files|
  {
    set i | 0 <= i < n :: c.files[i]
  }

  /** The schema is the first files, each applied once and in order, and exactly those are recorded. */
  ghost predicate AgreesWith(c: Setup, s: State, n: nat) {
    n <= |c.files| && s.schema == c.files[..n] && s.versions == Names(c, n)
  }

  /**
   * The schema started as the first `n` files and got those from `r` up to `m` since; the first
   * `m` are recorded. With `r == n` this is agreement.
   */
  ghost predicate Shape(c: Setup, s: State, n: nat, r: nat, m: nat) {
    n <= |c.files| && r <= m <= |c.files| && s.schema == c.files[..n] + c.files[r..m] && s.versions == Names(c, m)
  }

  function Max(a: nat, b: nat): nat {
    if a < b then b else a
  }

  /**
   * What a run knows. A run in its loop read the first `k` files as applied and has applied the
   * others up to `next` itself. One in the baseline branch has recorded what is recorded.
   */
  ghost predicate PhaseOk(c: Setup, p: nat, phase: Phase, r: nat, m: nat) {
    && (phase.Baselining? ==> phase.recorded == r == m && m <= c.shipped(p))
    && (InLoop(phase) ==>
          phase.next <= c.shipped(p) && exists k: nat :: KnewFirst(c, phase.applied, k) && m == Max(k, phase.next))
    && ((phase.Begun? || phase.Ran? || phase.Recorded?) ==> phase.next == m && phase.next < c.shipped(p))
    && ((phase.Unlocking? || phase.Returned?) && phase.ok ==> c.shipped(p) <= m)
  }

  ghost predicate KnewFirst(c: Setup, applied: set<string>, k: nat) {
    k <= |c.files| && applied == Names(c, k)
  }

  ghost predicate Exclusive(s: State, p: nat) {
    Holding(PhaseOf(s, p)) ==> s.lock == Some(p)
  }

  ghost predicate Inv(c: Setup, s: State, n: nat, r: nat, m: nat) {
    && Shape(c, s, n, r, m)
    && (forall p :: Exclusive(s, p))
    && (forall p :: PhaseOk(c, p, PhaseOf(s, p), r, m))
  }

  /** A step that records a file in the baseline branch. */
  function Records(e: Event): nat {
    if e.RecordBaseline? then 1 else 0
  }

  /** A step that applies and records a file. */
  function Applies(e: Event): nat {
    if e.Commit? || e.CommitUnanswered? then 1 else 0
  }

  lemma NamesGrow(c: Setup, n: nat)
    requires n < |c.files|
    ensures Names(c, n + 1) == Names(c, n) + {c.files[n]}
  {
  }

  lemma InNames(c: Setup, m: nat, i: nat)
    requires ValidSetup(c) && m <= |c.files| && i < |c.files|
    ensures c.files[i] in Names(c, m) <==> i < m
  {
  }

  lemma NoNamesIff(c: Setup, m: nat)
    requires m <= |c.files|
    ensures Names(c, m) == {} <==> m == 0
  {
    if m > 0 {
      assert c.files[0] in Names(c, m);
    }
  }

  lemma ShapeApplies(c: Setup, s: State, n: nat, r: nat, m: nat)
    requires Shape(c, s, n, r, m) && m < |c.files|
    ensures Shape(c, Committed(s, c.files[m]), n, r, m + 1)
  {
    NamesGrow(c, m);
    assert c.files[r..m + 1] == c.files[r..m] + [c.files[m]];
  }

  lemma ShapeRecords(c: Setup, s: State, n: nat, r: nat)
    requires Shape(c, s, n, r, r) && r < |c.files|
    ensures Shape(c, s.(versions := s.versions + {c.files[r]}), n, r + 1, r + 1)
  {
    NamesGrow(c, r);
  }

  /** Each step leaves the database in shape and moves the two marks by what it records and applies. */
  lemma DatabaseKeeps(c: Setup, s: State, e: Event, n: nat, r: nat, m: nat)
    requires ValidSetup(c) && Inv(c, s, n, r, m) && Enabled(c, s, e)
    ensures Shape(c, Next(c, s, e), n, r + Records(e), m + Records(e) + Applies(e))
  {
    hide Shape;
    assert PhaseOk(c, e.p, PhaseOf(s, e.p), r, m);
    if e.Commit? || e.CommitUnanswered? {
      ShapeApplies(c, s, n, r, m);
      ShapeIgnoresPhases(c, Committed(s, c.files[m]), Next(c, s, e), n, r, m + 1);
    } else if e.RecordBaseline? {
      ShapeRecords(c, s, n, r);
      ShapeIgnoresPhases(c, s.(versions := s.versions + {c.files[r]}), Next(c, s, e), n, r + 1, r + 1);
    } else {
      ShapeIgnoresPhases(c, s, Next(c, s, e), n, r, m);
    }
  }

  lemma ShapeIgnoresPhases(c: Setup, s: State, t: State, n: nat, r: nat, m: nat)
    requires Shape(c, s, n, r, m) && t.schema == s.schema && t.versions == s.versions
    ensures Shape(c, t, n, r, m)
  {
  }

  lemma LockKeeps(c: Setup, s: State, e: Event, p: nat)
    requires Exclusive(s, p) && Exclusive(s, e.p) && Enabled(c, s, e)
    ensures Exclusive(Next(c, s, e), p)
  {
  }

  lemma OwnLoopPhaseKeeps(c: Setup, s: State, e: Event, r: nat, m: nat)
    requires ValidSetup(c) && Enabled(c, s, e) && InLoop(PhaseOf(s, e.p)) && PhaseOk(c, e.p, PhaseOf(s, e.p), r, m)
    ensures PhaseOk(c, e.p, PhaseOf(Next(c, s, e), e.p), r, m + Applies(e))
  {
    var p, phase := e.p, PhaseOf(s, e.p);
    var k: nat :| KnewFirst(c, phase.applied, k) && m == Max(k, phase.next);
    match e
    case Skip(_) =>
      InNames(c, k, phase.next);
      assert m == Max(k, phase.next + 1);
    case Begin(_) => InNames(c, k, phase.next);
    case Commit(_) => assert m + 1 == Max(k, phase.next + 1);
    case _ =>
  }

  lemma OwnPhaseKeeps(c: Setup, s: State, e: Event, n: nat, r: nat, m: nat)
    requires ValidSetup(c) && Inv(c, s, n, r, m) && Enabled(c, s, e)
    ensures PhaseOk(c, e.p, PhaseOf(Next(c, s, e), e.p), r + Records(e), m + Records(e) + Applies(e))
  {
    var p, phase := e.p, PhaseOf(s, e.p);
    assert PhaseOk(c, p, phase, r, m);
    if InLoop(phase) {
      OwnLoopPhaseKeeps(c, s, e, r, m);
    } else if e.CheckBaseline? {
      NoNamesIff(c, m);
    } else if e.ReadApplied? {
      assert KnewFirst(c, s.versions, m) && m == Max(m, 0);
    }
  }

  /** Only the holder of the lock is in a phase that depends on the database. */
  lemma OtherPhaseKeeps(c: Setup, s: State, e: Event, n: nat, r: nat, m: nat, p: nat)
    requires ValidSetup(c) && Inv(c, s, n, r, m) && Enabled(c, s, e) && p != e.p
    ensures PhaseOk(c, p, PhaseOf(Next(c, s, e), p), r + Records(e), m + Records(e) + Applies(e))
  {
    hide Shape;
    assert Exclusive(s, p) && Exclusive(s, e.p) && PhaseOk(c, p, PhaseOf(s, p), r, m);
  }

  lemma StepKeeps(c: Setup, s: State, e: Event, n: nat, r: nat, m: nat)
    requires ValidSetup(c) && Inv(c, s, n, r, m) && Enabled(c, s, e)
    ensures Inv(c, Next(c, s, e), n, r + Records(e), m + Records(e) + Applies(e))
  {
    hide Shape, PhaseOk, Exclusive, Next, Enabled, Records, Applies;
    var t := Next(c, s, e);
    DatabaseKeeps(c, s, e, n, r, m);
    forall p: nat
      ensures Exclusive(t, p)
    {
      LockKeeps(c, s, e, p);
    }
    forall p: nat
      ensures PhaseOk(c, p, PhaseOf(t, p), r + Records(e), m + Records(e) + Applies(e))
    {
      if p == e.p {
        OwnPhaseKeeps(c, s, e, n, r, m);
      } else {
        OtherPhaseKeeps(c, s, e, n, r, m, p);
      }
    }
  }

  /**
   * Where a run starts: nobody at work, the schema of the first `n` files, the first `r` recorded.
   * `r == n` is a database the runner made, `r == 0` with a marker table is what the baseline
   * branch is for.
   */
  ghost predicate Starts(c: Setup, s: State, n: nat, r: nat) {
    n <= |c.files| && r <= |c.files|
    && s.schema == c.files[..n] && s.versions == Names(c, r) && s.lock.None? && s.phases == map[]
  }

  lemma EmptyDatabaseStarts(c: Setup)
    ensures Starts(c, State([], {}, None, map[]), 0, 0)
  {
  }

  /** How many files the first `i` steps recorded in the baseline branch. */
  function RecordedBy(events: seq<Event>, i: nat): nat
    requires i <= |events|
  {
    if i == 0 then 0 else RecordedBy(events, i - 1) + Records(events[i - 1])
  }

  function AppliedBy(events: seq<Event>, i: nat): nat
    requires i <= |events|
  {
    if i == 0 then 0 else AppliedBy(events, i - 1) + Applies(events[i - 1])
  }

  lemma NothingYet(events: seq<Event>)
    ensures RecordedBy(events, 0) == 0 && AppliedBy(events, 0) == 0
  {
  }

  lemma OneStep(c: Setup, states: seq<State>, events: seq<Event>, first: State, i: nat)
    requires Run(c, states, events, first) && i < |events|
    ensures |states| == |events| + 1 && Enabled(c, states[i], events[i]) && states[i + 1] == Next(c, states[i], events[i])
    ensures RecordedBy(events, i + 1) == RecordedBy(events, i) + Records(events[i])
    ensures AppliedBy(events, i + 1) == AppliedBy(events, i) + Applies(events[i])
  {
    hide Enabled, Next;
  }

  lemma StartsInv(c: Setup, s: State, n: nat, r: nat)
    requires Starts(c, s, n, r)
    ensures Inv(c, s, n, r, r)
  {
    assert c.files[..n] + c.files[r..r] == c.files[..n];
    assert forall p :: PhaseOf(s, p) == Waiting;
  }

  lemma {:induction false} RunKeeps(c: Setup, states: seq<State>, events: seq<Event>, first: State, n: nat, r: nat, i: nat)
    requires ValidSetup(c) && Starts(c, first, n, r) && Run(c, states, events, first) && i < |states|
    ensures var record := r + RecordedBy(events, i); Inv(c, states[i], n, record, record + AppliedBy(events, i))
    decreases i
  {
    hide *;
    AreRuns(c, states, events, first);
    NothingYet(events);
    if i == 0 {
      StartsInv(c, first, n, r);
    } else {
      OneStep(c, states, events, first, i - 1);
      RunKeeps(c, states, events, first, n, r, i - 1);
      var record := r + RecordedBy(events, i - 1);
      StepKeeps(c, states[i - 1], events[i - 1], n, record, record + AppliedBy(events, i - 1));
    }
  }

  lemma RunInShape(c: Setup, states: seq<State>, events: seq<Event>, first: State, n: nat, r: nat, i: nat)
    requires ValidSetup(c) && Starts(c, first, n, r) && Run(c, states, events, first) && i < |states| == |events| + 1
    ensures var record := r + RecordedBy(events, i); Shape(c, states[i], n, record, record + AppliedBy(events, i))
  {
    hide Shape, RecordedBy, AppliedBy, Run, Starts, PhaseOk, Exclusive;
    RunKeeps(c, states, events, first, n, r, i);
  }

  lemma OneHolder(s: State)
    requires forall p :: Exclusive(s, p)
    ensures forall p, q :: Holding(PhaseOf(s, p)) && Holding(PhaseOf(s, q)) ==> p == q
  {
    forall p, q | Holding(PhaseOf(s, p)) && Holding(PhaseOf(s, q))
      ensures p == q
    {
      assert Exclusive(s, p) && Exclusive(s, q);
    }
  }

  /**
   * Every state of every run in closed form: to the schema it started with the run has added the
   * files from the record on that it applied, and the first of all files up to there are recorded.
   */
  lemma EveryStateInShape(c: Setup, states: seq<State>, events: seq<Event>, first: State, n: nat, r: nat, i: nat)
    requires ValidSetup(c) && Starts(c, first, n, r) && Run(c, states, events, first) && i < |states|
    ensures var record := r + RecordedBy(events, i);
            var end := record + AppliedBy(events, i);
            && end <= |c.files|
            && states[i].schema == c.files[..n] + c.files[record..end] && states[i].versions == Names(c, end)
    ensures forall p, q :: Holding(PhaseOf(states[i], p)) && Holding(PhaseOf(states[i], q)) ==> p == q
  {
    hide Enabled, Next, PhaseOk, Exclusive, Names, RecordedBy, AppliedBy, Starts, Run, Holding, PhaseOf;
    RunKeeps(c, states, events, first, n, r, i);
    OneHolder(states[i]);
  }

  /** The baseline branch needs a schema without versions, which agreement rules out. */
  lemma NoBaseline(c: Setup, s: State)
    requires AgreesWith(c, s, |s.schema|)
    ensures !(s.versions == {} && c.marker in s.schema)
  {
    if c.marker in s.schema {
      assert c.files[0] in Names(c, |s.schema|);
    }
  }

  lemma ShapeAgrees(c: Setup, s: State, n: nat, m: nat)
    requires Shape(c, s, n, n, m)
    ensures |s.schema| == m && AgreesWith(c, s, m)
  {
    assert c.files[..n] + c.files[n..m] == c.files[..m];
  }

  ghost predicate NoneInBranch(s: State) {
    forall p :: !PhaseOf(s, p).Baselining?
  }

  /** Nobody enters the branch while its condition fails. */
  lemma NobodyEnters(c: Setup, s: State, e: Event)
    requires Enabled(c, s, e) && NoneInBranch(s) && !(s.versions == {} && c.marker in s.schema)
    ensures NoneInBranch(Next(c, s, e)) && Records(e) == 0
  {
    var t := Next(c, s, e);
    assert !PhaseOf(s, e.p).Baselining?;
    forall p: nat
      ensures !PhaseOf(t, p).Baselining?
    {
      assert !PhaseOf(s, p).Baselining?;
    }
  }

  lemma AgreementKeepsOut(c: Setup, s: State, e: Event, n: nat, m: nat)
    requires Shape(c, s, n, n, m) && Enabled(c, s, e) && NoneInBranch(s)
    ensures NoneInBranch(Next(c, s, e)) && Records(e) == 0
  {
    hide Enabled, Next, Names, NoneInBranch, Records;
    ShapeAgrees(c, s, n, m);
    NoBaseline(c, s);
    NobodyEnters(c, s, e);
  }

  /** From a database the runner made the baseline branch is never entered. */
  lemma {:induction false} NothingRecordedAsBaseline(c: Setup, states: seq<State>, events: seq<Event>, first: State,
                                                     n: nat, i: nat)
    requires ValidSetup(c) && Starts(c, first, n, n) && Run(c, states, events, first) && i < |states|
    ensures RecordedBy(events, i) == 0 && NoneInBranch(states[i])
    decreases i
  {
    if i == 0 {
    } else {
      hide *;
      OneStep(c, states, events, first, i - 1);
      NothingRecordedAsBaseline(c, states, events, first, n, i - 1);
      RunInShape(c, states, events, first, n, n, i - 1);
      AgreementKeepsOut(c, states[i - 1], events[i - 1], n, n + AppliedBy(events, i - 1));
    }
  }

  /**
   * Whatever processes, errors and crashes interleave on a database the runner made: the schema is
   * the first files, each applied exactly once and in order, the recorded versions are exactly
   * those files, the lock has one holder, and the baseline branch is never entered.
   */
  lemma SchemaIsAPrefix(c: Setup, states: seq<State>, events: seq<Event>, first: State, n: nat, i: nat)
    requires ValidSetup(c) && Starts(c, first, n, n) && Run(c, states, events, first) && i < |states|
    ensures states[i].schema <= c.files
    ensures forall file :: file in states[i].versions <==> file in states[i].schema
    ensures forall p, q :: Holding(PhaseOf(states[i], p)) && Holding(PhaseOf(states[i], q)) ==> p == q
    ensures NoneInBranch(states[i])
  {
    EveryStateInShape(c, states, events, first, n, n, i);
    NothingRecordedAsBaseline(c, states, events, first, n, i);
    ShapeAgrees(c, states[i], n, n + AppliedBy(events, i));
  }

  lemma {:induction false} TalliesGrow(events: seq<Event>, i: nat, j: nat)
    requires i <= j <= |events|
    ensures RecordedBy(events, i) <= RecordedBy(events, j) && AppliedBy(events, i) <= AppliedBy(events, j)
    decreases j
  {
    if i == j {
    } else {
      TalliesGrow(events, i, j - 1);
    }
  }

  /** A normal return means that every file the process ships is applied, then and ever after. */
  lemma ReturnMeansApplied(c: Setup, states: seq<State>, events: seq<Event>, first: State, n: nat, i: nat, j: nat, p: nat)
    requires ValidSetup(c) && Starts(c, first, n, n) && Run(c, states, events, first) && i <= j < |states|
    requires PhaseOf(states[i], p) == Returned(true)
    ensures c.files[..c.shipped(p)] <= states[j].schema
  {
    hide Enabled, Next, Exclusive, Names, RecordedBy, AppliedBy, Starts, Run, NoneInBranch, KnewFirst, Shape;
    AreRuns(c, states, events, first);
    RunKeeps(c, states, events, first, n, n, i);
    RunKeeps(c, states, events, first, n, n, j);
    NothingRecordedAsBaseline(c, states, events, first, n, i);
    NothingRecordedAsBaseline(c, states, events, first, n, j);
    TalliesGrow(events, i, j);
    assert PhaseOk(c, p, PhaseOf(states[i], p), n, n + AppliedBy(events, i));
    ShapeAgrees(c, states[j], n, n + AppliedBy(events, j));
  }

  // The baseline branch

  lemma SameNamesIff(c: Setup, m: nat, k: nat)
    requires ValidSetup(c) && m <= |c.files| && k <= |c.files|
    ensures Names(c, m) == Names(c, k) <==> m == k
  {
    if m < k {
      InNames(c, m, m);
      InNames(c, k, m);
    } else if k < m {
      InNames(c, m, k);
      InNames(c, k, k);
    }
  }

  lemma ShapeAgreesIff(c: Setup, s: State, n: nat, r: nat, m: nat)
    requires ValidSetup(c) && Shape(c, s, n, r, m)
    ensures AgreesWith(c, s, |s.schema|) <==> r == n
  {
    if r == n {
      ShapeAgrees(c, s, n, m);
    } else if |s.schema| <= |c.files| {
      SameNamesIff(c, m, |s.schema|);
    }
  }

  ghost predicate HoldsTwice(schema: seq<string>) {
    exists i, j :: 0 <= i < j < |schema| && schema[i] == schema[j]
  }

  /** Which of the files entry `k` of such a schema is. */
  function FileAt(n: nat, r: nat, k: nat): nat {
    if k < n then k else r + (k - n)
  }

  lemma ShapeRepeatsIff(c: Setup, s: State, n: nat, r: nat, m: nat)
    requires ValidSetup(c) && Shape(c, s, n, r, m)
    ensures HoldsTwice(s.schema) <==> r < n && r < m
  {
    assert forall k :: 0 <= k < |s.schema| ==> s.schema[k] == c.files[FileAt(n, r, k)];
    if r < n && r < m {
      assert s.schema[r] == s.schema[n];
    } else {
      forall i, j | 0 <= i < j < |s.schema|
        ensures s.schema[i] != s.schema[j]
      {
        assert FileAt(n, r, i) < FileAt(n, r, j);
      }
    }
  }

  ghost predicate RecordsUnapplied(s: State) {
    exists file :: file in s.versions && file !in s.schema
  }

  lemma ShapeMissesIff(c: Setup, s: State, n: nat, r: nat, m: nat)
    requires ValidSetup(c) && Shape(c, s, n, r, m)
    ensures RecordsUnapplied(s) <==> n < r
  {
    assert forall k :: 0 <= k < |s.schema| ==> s.schema[k] == c.files[FileAt(n, r, k)];
    if n < r {
      assert c.files[n] in s.versions;
      assert forall k :: 0 <= k < |s.schema| ==> FileAt(n, r, k) != n;
      assert c.files[n] !in s.schema;
    } else {
      forall file | file in s.versions
        ensures file in s.schema
      {
        var k :| 0 <= k < m && c.files[k] == file;
        assert s.schema[if k < n then k else n + (k - r)] == file;
      }
    }
  }

  /**
   * Schema and versions say the same exactly when the record is what the schema was found to hold.
   * A file is applied twice exactly when the record fell short and something was applied since, and
   * a file is recorded that was never applied exactly when the record went too far.
   */
  lemma RecordDecides(c: Setup, states: seq<State>, events: seq<Event>, first: State, n: nat, r: nat, i: nat)
    requires ValidSetup(c) && Starts(c, first, n, r) && Run(c, states, events, first) && i < |states|
    ensures AgreesWith(c, states[i], |states[i].schema|) <==> r + RecordedBy(events, i) == n
    ensures HoldsTwice(states[i].schema) <==> r + RecordedBy(events, i) < n && AppliedBy(events, i) > 0
    ensures RecordsUnapplied(states[i]) <==> r + RecordedBy(events, i) > n
  {
    hide *;
    AreRuns(c, states, events, first);
    RunInShape(c, states, events, first, n, r, i);
    var record := r + RecordedBy(events, i);
    var end := record + AppliedBy(events, i);
    ShapeAgreesIff(c, states[i], n, record, end);
    ShapeRepeatsIff(c, states[i], n, record, end);
    ShapeMissesIff(c, states[i], n, record, end);
  }

  /** The step ends process `p`'s stay in the branch with `k` files recorded: to its end, by an error or by a crash. */
  ghost predicate LeavesBranch(s: State, e: Event, k: nat) {
    PhaseOf(s, e.p) == Baselining(k) && (e.EndBaseline? || e.Fail? || e.Crash?)
  }

  lemma NonemptyVersions(c: Setup, s: State, n: nat, r: nat, m: nat)
    requires Shape(c, s, n, r, m) && m > 0
    ensures s.versions != {}
  {
    NoNamesIff(c, m);
  }

  /** While anything is recorded and nobody is in the branch, nobody enters it again. */
  /** One step of a run keeps a record that is there and out of reach of the branch. */
  lemma RecordStays(c: Setup, states: seq<State>, events: seq<Event>, first: State, n: nat, r: nat, j: nat)
    requires ValidSetup(c) && Starts(c, first, n, r) && Run(c, states, events, first) && j < |events|
    requires r + RecordedBy(events, j) > 0 && NoneInBranch(states[j])
    ensures RecordedBy(events, j + 1) == RecordedBy(events, j) && NoneInBranch(states[j + 1])
  {
    hide *;
    OneStep(c, states, events, first, j);
    RunInShape(c, states, events, first, n, r, j);
    var record := r + RecordedBy(events, j);
    NonemptyVersions(c, states[j], n, record, record + AppliedBy(events, j));
    NobodyEnters(c, states[j], events[j]);
  }

  lemma {:induction false} RecordIsFixed(c: Setup, states: seq<State>, events: seq<Event>, first: State, n: nat, r: nat,
                                         i: nat, j: nat)
    requires ValidSetup(c) && Starts(c, first, n, r) && Run(c, states, events, first) && i <= j < |states|
    requires r + RecordedBy(events, i) > 0 && NoneInBranch(states[i])
    ensures RecordedBy(events, j) == RecordedBy(events, i) && NoneInBranch(states[j])
    decreases j
  {
    hide *;
    AreRuns(c, states, events, first);
    if i == j {
    } else {
      RecordIsFixed(c, states, events, first, n, r, i, j - 1);
      RecordStays(c, states, events, first, n, r, j - 1);
    }
  }

  /** Leaving the branch with `k` files recorded: those are the record, and nobody else is in it. */
  lemma LeftBehind(c: Setup, s: State, e: Event, n: nat, r: nat, m: nat, k: nat)
    requires Inv(c, s, n, r, m) && Enabled(c, s, e) && LeavesBranch(s, e, k)
    ensures r == k && Records(e) == 0 && NoneInBranch(Next(c, s, e))
    ensures e.EndBaseline? ==> k == c.shipped(e.p)
  {
    hide Shape;
    var t := Next(c, s, e);
    assert PhaseOk(c, e.p, PhaseOf(s, e.p), r, m);
    forall q: nat
      ensures !PhaseOf(t, q).Baselining?
    {
      assert Exclusive(s, e.p) && Exclusive(s, q);
    }
  }

  /**
   * However the branch is left with something recorded, the record is what was recorded by then,
   * for good: `k` files, all the process ships when it went to the end.
   */
  lemma LeavingFixesTheRecord(c: Setup, states: seq<State>, events: seq<Event>, first: State, n: nat, i: nat, j: nat, k: nat)
    requires ValidSetup(c) && Starts(c, first, n, 0) && Run(c, states, events, first) && i < j < |states|
    requires LeavesBranch(states[i], events[i], k) && k > 0
    ensures RecordedBy(events, j) == k
    ensures events[i].EndBaseline? ==> k == c.shipped(events[i].p)
  {
    hide Enabled, Next, Starts, NoneInBranch, Inv, LeavesBranch, AppliedBy;
    RunKeeps(c, states, events, first, n, 0, i);
    LeftBehind(c, states[i], events[i], n, RecordedBy(events, i), RecordedBy(events, i) + AppliedBy(events, i), k);
    RecordIsFixed(c, states, events, first, n, 0, i + 1, j);
  }

  /** An end of the branch leaves it with some number of files recorded. */
  lemma EndLeaves(c: Setup, s: State, e: Event)
    requires Enabled(c, s, e) && e.EndBaseline?
    ensures exists k: nat :: LeavesBranch(s, e, k) && k >= c.shipped(e.p)
  {
    assert LeavesBranch(s, e, PhaseOf(s, e.p).recorded);
  }

  /**
   * Ever after the branch ran to its end, schema and versions agree exactly when the process
   * shipped as many files as the schema was found to hold; with fewer, whatever is applied next
   * is applied twice.
   */
  lemma BaselineTruthfulIffComplete(c: Setup, states: seq<State>, events: seq<Event>, first: State, n: nat, i: nat, j: nat)
    requires ValidSetup(c) && Starts(c, first, n, 0) && Run(c, states, events, first) && i < j < |states|
    requires events[i].EndBaseline? && c.shipped(events[i].p) > 0
    ensures AgreesWith(c, states[j], |states[j].schema|) <==> c.shipped(events[i].p) == n
    ensures HoldsTwice(states[j].schema) <==> c.shipped(events[i].p) < n && AppliedBy(events, j) > 0
  {
    hide Enabled, Next, Starts, LeavesBranch, AgreesWith, HoldsTwice, RecordsUnapplied, AppliedBy, RecordedBy;
    EndLeaves(c, states[i], events[i]);
    var k: nat :| LeavesBranch(states[i], events[i], k) && k >= c.shipped(events[i].p);
    LeavingFixesTheRecord(c, states, events, first, n, i, j, k);
    RecordDecides(c, states, events, first, n, 0, j);
  }

  /**
   * The branch is not one transaction. Ever after a process stopped in it with `k` files recorded,
   * by an error or a crash, schema and versions agree exactly when `k` is what the schema held,
   * and with less a file is applied twice as soon as a later run applies anything.
   */
  lemma StoppedBaselineRepeatsIff(c: Setup, states: seq<State>, events: seq<Event>, first: State, n: nat, i: nat, j: nat, k: nat)
    requires ValidSetup(c) && Starts(c, first, n, 0) && Run(c, states, events, first) && i < j < |states|
    requires LeavesBranch(states[i], events[i], k) && !events[i].EndBaseline? && k > 0
    ensures AgreesWith(c, states[j], |states[j].schema|) <==> k == n
    ensures HoldsTwice(states[j].schema) <==> k < n && AppliedBy(events, j) > 0
  {
    hide *;
    AreRuns(c, states, events, first);
    LeavingFixesTheRecord(c, states, events, first, n, i, j, k);
    RecordDecides(c, states, events, first, n, 0, j);
  }

  lemma Extend(c: Setup, states: seq<State>, events: seq<Event>, first: State, e: Event)
      returns (states': seq<State>, events': seq<Event>)
    requires Run(c, states, events, first) && Enabled(c, states[|events|], e)
    ensures Run(c, states', events', first)
    ensures states'[|events'|] == Next(c, states[|events|], e)
  {
    states', events' := states + [Next(c, states[|events|], e)], events + [e];
  }

  /** A database with the schema of the first `n` files and no versions: what the branch is for. */
  ghost function Unrecorded(c: Setup, n: nat): State
    requires n <= |c.files|
  {
    State(c.files[..n], {}, None, map[])
  }

  lemma {:induction false} RecordAll(c: Setup, n: nat, p: nat, k: nat) returns (states: seq<State>, events: seq<Event>)
    requires ValidSetup(c) && n <= |c.files| && c.marker in c.files[..n] && k <= c.shipped(p)
    ensures Run(c, states, events, Unrecorded(c, n))
    ensures states[|events|].schema == c.files[..n] && states[|events|].versions == Names(c, k)
    ensures states[|events|].lock == Some(p) && PhaseOf(states[|events|], p) == Baselining(k)
  {
    if k == 0 {
      states, events := [Unrecorded(c, n)], [];
      states, events := Extend(c, states, events, Unrecorded(c, n), Acquire(p));
      states, events := Extend(c, states, events, Unrecorded(c, n), CheckBaseline(p));
    } else {
      states, events := RecordAll(c, n, p, k - 1);
      NamesGrow(c, k - 1);
      states, events := Extend(c, states, events, Unrecorded(c, n), RecordBaseline(p));
    }
  }

  lemma CrashInTheBranch(c: Setup, p: nat) returns (states: seq<State>, events: seq<Event>)
    requires ValidSetup(c) && |c.files| >= 2 && c.marker in c.files && c.shipped(p) == |c.files|
    ensures Run(c, states, events, Unrecorded(c, |c.files|))
    ensures states[|events|].schema == c.files && states[|events|].versions == Names(c, 1)
    ensures states[|events|].lock.None? && PhaseOf(states[|events|], p).Waiting?
  {
    var first := Unrecorded(c, |c.files|);
    assert c.files[..|c.files|] == c.files;
    states, events := RecordAll(c, |c.files|, p, 1);
    states, events := Extend(c, states, events, first, Crash(p));
    states, events := Extend(c, states, events, first, StartAgain(p));
  }

  lemma SecondRunReadsOneVersion(c: Setup, p: nat) returns (states: seq<State>, events: seq<Event>)
    requires ValidSetup(c) && |c.files| >= 2 && c.marker in c.files && c.shipped(p) == |c.files|
    ensures Run(c, states, events, Unrecorded(c, |c.files|))
    ensures states[|events|].schema == c.files && PhaseOf(states[|events|], p) == At(Names(c, 1), 1)
  {
    hide Run;
    var first := Unrecorded(c, |c.files|);
    states, events := CrashInTheBranch(c, p);
    assert c.files[0] in Names(c, 1);
    states, events := Extend(c, states, events, first, Acquire(p));
    states, events := Extend(c, states, events, first, CheckBaseline(p));
    states, events := Extend(c, states, events, first, ReadApplied(p));
    states, events := Extend(c, states, events, first, Skip(p));
  }

  /** It comes about: the run after the crash finds some versions and applies a file the schema has. */
  lemma BaselineCrashRepeatsAFile(c: Setup, p: nat) returns (states: seq<State>, events: seq<Event>)
    requires ValidSetup(c) && |c.files| >= 2 && c.marker in c.files && c.shipped(p) == |c.files|
    ensures Run(c, states, events, Unrecorded(c, |c.files|))
    ensures states[|events|].schema == c.files + [c.files[1]]
  {
    hide Run;
    var first := Unrecorded(c, |c.files|);
    states, events := SecondRunReadsOneVersion(c, p);
    InNames(c, 1, 1);
    states, events := Extend(c, states, events, first, Begin(p));
    states, events := Extend(c, states, events, first, RunSql(p));
    states, events := Extend(c, states, events, first, RecordVersion(p));
    states, events := Extend(c, states, events, first, Commit(p));
  }
}
