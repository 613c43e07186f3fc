/**
 * The worker process of one run, statement by statement, and what its parent makes of it.
 *
 * The worker reads its job from stdin, reads the config type, runs the sync job, whose replace
 * transaction may land, and prints one result line before it exits. Every await can throw, also
 * after the transaction has landed, and the process can die at any moment. The parent takes the
 * last result line it received, or reports a failure when there is none.
 */
module WorkerProcess {
  import opened Wrappers
  import opened QueueSpec

  /** A line on stdout; log and progress lines are no result messages. */
  datatype Line = Noise(text: string) | ResultOk(durationMs: nat) | ResultFailed(message: string)

  datatype Phase = Spawning | SpawnFailed(error: string) | ReadingJob | ReadingConfig | Syncing | Finishing | Exited

  datatype Worker = Worker(phase: Phase, committed: bool, printed: seq<Line>)

  datatype Event =
    | SpawnFails(error: string)
    | Spawns
    | StdinEmpty
    | StdinNotJson
    | JobRead
    | ConfigRead
    | CommitLands
    | Throws(error: string)
    | Returns(elapsedMs: int)
    | Logs(text: string)
    | Dies

  const STARTED := Worker(Spawning, false, [])
  const EMPTY_STDIN := "prefetch_worker_empty_stdin"
  const INVALID_STDIN := "prefetch_worker_invalid_stdin_json"
  const NO_RESULT := "prefetch_worker_no_result:"

  function Trimmed(error: string): (message: string)
    ensures message != "" && |message| <= 240
  {
    ClosedReason(error)
  }

  predicate Enabled(w: Worker, e: Event) {
    match e
    case SpawnFails(_) => w.phase.Spawning?
    case Spawns => w.phase.Spawning?
    case StdinEmpty => w.phase.ReadingJob?
    case StdinNotJson => w.phase.ReadingJob?
    case JobRead => w.phase.ReadingJob?
    case ConfigRead => w.phase.ReadingConfig?
    case CommitLands => w.phase.Syncing?
    case Throws(_) => w.phase.ReadingConfig? || w.phase.Syncing? || w.phase.Finishing?
    case Returns(_) => w.phase.Finishing?
    case Logs(_) => w.phase.Syncing? || w.phase.Finishing?
    case Dies => !w.phase.Spawning? && !w.phase.SpawnFailed? && !w.phase.Exited?
  }

  /** `process.stdout.write` of a result line followed by `process.exit`. */
  function PrintAndExit(w: Worker, line: Line): Worker {
    w.(phase := Exited, printed := w.printed + [line])
  }

  function Next(w: Worker, e: Event): Worker
    requires Enabled(w, e)
  {
    match e
    case SpawnFails(error) => w.(phase := SpawnFailed(error))
    case Spawns => w.(phase := ReadingJob)
    case StdinEmpty => PrintAndExit(w, ResultFailed(EMPTY_STDIN))
    case StdinNotJson => PrintAndExit(w, ResultFailed(INVALID_STDIN))
    case JobRead => w.(phase := ReadingConfig)
    case ConfigRead => w.(phase := Syncing)
    case CommitLands => w.(phase := Finishing, committed := true)
    case Throws(error) => PrintAndExit(w, ResultFailed(Trimmed(error)))
    case Returns(elapsedMs) => PrintAndExit(w, ResultOk(if elapsedMs < 1 then 1 else elapsedMs))
    case Logs(text) => w.(printed := w.printed + [Noise(text)])
    case Dies => w.(phase := Exited)
  }

  ghost predicate Run(workers: seq<Worker>, events: seq<Event>) {
    && |workers| == |events| + 1 && workers[0] == STARTED
    && forall i :: 0 <= i < |events| ==> Enabled(workers[i], events[i]) && workers[i + 1] == Next(workers[i], events[i])
  }

  // The parent

  /** The last result message among the received lines. */
  function LastResult(lines: seq<Line>): Option<Line> {
    if lines == [] then None
    else if lines[|lines| - 1].Noise? then LastResult(lines[..|lines| - 1])
    else Some(lines[|lines| - 1])
  }

  /**
   * How the run ends for the queue. `received`: how many printed lines reached the parent whole.
   * `hint`: what it knows of a worker without a result. `handling`: a database error, if any,
   * while it handles an ok report.
   */
  function ExitOf(w: Worker, received: nat, hint: string, handling: Option<string>): Exit
    requires w.phase.Exited? || w.phase.SpawnFailed?
    requires received <= |w.printed|
  {
    Exit(w.committed,
         if w.phase.SpawnFailed? then SpawnError(w.phase.error)
         else
           match LastResult(w.printed[..received])
           case None => ReportFailed(NO_RESULT + hint)
           case Some(ResultFailed(message)) => ReportFailed(message)
           case Some(_) => if handling.Some? then OkThenError(handling.value) else ReportOk)
  }

  /** Result lines are printed last, and an ok line only after the commit. */
  ghost predicate Honest(w: Worker) {
    && (forall i :: 0 <= i < |w.printed| - 1 ==> w.printed[i].Noise?)
    && (!w.phase.Exited? ==> forall i :: 0 <= i < |w.printed| ==> w.printed[i].Noise?)
    && (forall i :: 0 <= i < |w.printed| && w.printed[i].ResultOk? ==> w.committed)
    && (w.phase.Finishing? ==> w.committed)
    && (w.phase.Spawning? || w.phase.SpawnFailed? || w.phase.ReadingJob? || w.phase.ReadingConfig? ==> !w.committed)
  }

  lemma {:induction false} RunIsHonest(workers: seq<Worker>, events: seq<Event>, i: nat)
    requires Run(workers, events) && i <= |events|
    ensures Honest(workers[i])
    decreases i
  {
    if i == 0 {
    } else {
      RunIsHonest(workers, events, i - 1);
    }
  }

  ghost function LoggedIn(events: seq<Event>): seq<string> {
    if events == [] then []
    else
      var before, last := LoggedIn(events[..|events| - 1]), events[|events| - 1];
      if last.Logs? then before + [last.text] else before
  }

  ghost function NoiseIn(lines: seq<Line>): seq<string> {
    if lines == [] then []
    else
      var before, last := NoiseIn(lines[..|lines| - 1]), lines[|lines| - 1];
      if last.Noise? then before + [last.text] else before
  }

  lemma NoiseStep(w: Worker, e: Event)
    requires Enabled(w, e)
    ensures NoiseIn(Next(w, e).printed) == NoiseIn(w.printed) + if e.Logs? then [e.text] else []
    ensures Next(w, e).committed <==> w.committed || e.CommitLands?
  {
    hide Trimmed;
    var after := Next(w, e).printed;
    assert after == w.printed || after[..|after| - 1] == w.printed;
  }

  lemma LoggedStep(events: seq<Event>, i: nat)
    requires 0 < i <= |events|
    ensures LoggedIn(events[..i]) == LoggedIn(events[..i - 1]) + if events[i - 1].Logs? then [events[i - 1].text] else []
  {
    assert events[..i][..i - 1] == events[..i - 1];
  }

  /** The log lines on stdout are those the job wrote, in order, and it committed if its transaction landed. */
  lemma {:induction false} LogsInOrder(workers: seq<Worker>, events: seq<Event>, i: nat)
    requires Run(workers, events) && i <= |events|
    ensures NoiseIn(workers[i].printed) == LoggedIn(events[..i])
    ensures workers[i].committed <==> CommitLands in events[..i]
    decreases i
  {
    hide NoiseIn, LoggedIn, Next, Enabled;
    if i == 0 {
      NothingLogged(events[..i]);
    } else {
      LogsInOrder(workers, events, i - 1);
      LoggedStep(events, i);
      NoiseStep(workers[i - 1], events[i - 1]);
      assert events[..i] == events[..i - 1] + [events[i - 1]];
    }
  }

  lemma NothingLogged(events: seq<Event>)
    requires events == []
    ensures LoggedIn(events) == NoiseIn(STARTED.printed) == [] && !STARTED.committed
  {
  }

  lemma {:induction false} LastResultIsPrinted(lines: seq<Line>)
    ensures LastResult(lines).Some? ==> LastResult(lines).value in lines && !LastResult(lines).value.Noise?
  {
    if lines == [] {
    } else {
      LastResultIsPrinted(lines[..|lines| - 1]);
      assert lines == lines[..|lines| - 1] + [lines[|lines| - 1]];
    }
  }

  /** A worker and a way its parent sees it end with this exit, up to the words of a failure. */
  ghost predicate Ends(workers: seq<Worker>, events: seq<Event>, received: nat, hint: string, handling: Option<string>,
                       exit: Exit)
  {
    && Run(workers, events)
    && (workers[|events|].phase.Exited? || workers[|events|].phase.SpawnFailed?)
    && received <= |workers[|events|].printed|
    && ExitOf(workers[|events|], received, hint, handling) == exit
  }

  /** However the worker runs, dies and is heard: an ok report means the catalog was replaced. */
  lemma EndsArePossible(workers: seq<Worker>, events: seq<Event>, received: nat, hint: string, handling: Option<string>,
                        exit: Exit)
    requires Ends(workers, events, received, hint, handling, exit)
    ensures exit.Possible()
  {
    var w := workers[|events|];
    RunIsHonest(workers, events, |events|);
    var heard := w.printed[..received];
    LastResultIsPrinted(heard);
    if LastResult(heard).Some? && LastResult(heard).value.ResultOk? {
      var i :| 0 <= i < |heard| && heard[i] == LastResult(heard).value;
      assert w.printed[i].ResultOk?;
    }
  }

  ghost predicate SameKind(a: Report, b: Report) {
    && (a.ReportOk? <==> b.ReportOk?) && (a.ReportFailed? <==> b.ReportFailed?)
    && (a.SpawnError? <==> b.SpawnError?) && (a.OkThenError? <==> b.OkThenError?)
  }

  /** Each exit that is possible comes about, up to the words of a failure. */
  lemma PossibleEnds(exit: Exit)
      returns (workers: seq<Worker>, events: seq<Event>, received: nat, handling: Option<string>, ended: Exit)
    requires exit.Possible()
    ensures Ends(workers, events, received, "", handling, ended)
    ensures ended.committed == exit.committed && SameKind(ended.report, exit.report)
  {
    workers, events := [STARTED], [];
    received, handling := 0, None;
    if exit.report.SpawnError? {
      workers, events := Extend(workers, events, SpawnFails(exit.report.message));
    } else {
      workers, events := Extend(workers, events, Spawns);
      workers, events := Extend(workers, events, JobRead);
      workers, events := Extend(workers, events, ConfigRead);
      if exit.committed {
        workers, events := Extend(workers, events, CommitLands);
      }
      if exit.report.ReportFailed? {
        workers, events := Extend(workers, events, Dies);
      } else {
        workers, events := Extend(workers, events, Returns(1));
        received := 1;
        handling := if exit.report.OkThenError? then Some(exit.report.message) else None;
      }
    }
    ended := ExitOf(workers[|events|], received, "", handling);
  }

  lemma Extend(workers: seq<Worker>, events: seq<Event>, e: Event) returns (workers': seq<Worker>, events': seq<Event>)
    requires Run(workers, events) && Enabled(workers[|events|], e)
    ensures Run(workers', events') && |workers'| == |workers| + 1 && events' == events + [e]
    ensures workers'[|events'|] == Next(workers[|events|], e)
  {
    workers', events' := workers + [Next(workers[|events|], e)], events + [e];
  }

  ghost predicate ComesAbout(exit: Exit) {
    exists workers, events, received: nat, hint, handling, ended: Exit ::
      Ends(workers, events, received, hint, handling, ended)
      && ended.committed == exit.committed && SameKind(ended.report, exit.report)
  }

  /** `Possible` says exactly what worker and parent together can end with. */
  lemma PossibleIffComesAbout(exit: Exit)
    ensures exit.Possible() <==> ComesAbout(exit)
  {
    if exit.Possible() {
      var workers, events, received, handling, ended := PossibleEnds(exit);
      assert Ends(workers, events, received, "", handling, ended);
    }
    if ComesAbout(exit) {
      var workers, events, received: nat, hint, handling, ended: Exit :|
        Ends(workers, events, received, hint, handling, ended)
        && ended.committed == exit.committed && SameKind(ended.report, exit.report);
      EndsArePossible(workers, events, received, hint, handling, ended);
    }
  }

  /** The parent reads the last result line, and there is never more than one to read. */
  lemma AtMostOneResult(workers: seq<Worker>, events: seq<Event>, i: nat, j: nat)
    requires Run(workers, events)
    requires i < |workers[|events|].printed| && j < |workers[|events|].printed|
    requires !workers[|events|].printed[i].Noise? && !workers[|events|].printed[j].Noise?
    ensures i == j == |workers[|events|].printed| - 1
  {
    RunIsHonest(workers, events, |events|);
  }

  /**
   * A worker that goes through: what it prints, and how its run ends for a parent that heard all
   * of it and for one that lost the last line.
   */
  lemma OrdinaryWorker(first: string, second: string, elapsedMs: int) returns (workers: seq<Worker>, events: seq<Event>)
    ensures Run(workers, events)
    ensures events == [Spawns, JobRead, ConfigRead, Logs(first), CommitLands, Logs(second), Returns(elapsedMs)]
    ensures var w := workers[|events|];
            && w.phase.Exited? && w.committed
            && w.printed == [Noise(first), Noise(second), ResultOk(if elapsedMs <= 0 then 1 else elapsedMs)]
            && ExitOf(w, 3, "", None) == Exit(true, ReportOk)
            && ExitOf(w, 2, "crashed", None) == Exit(true, ReportFailed("prefetch_worker_no_result:crashed"))
  {
    workers, events := [STARTED], [];
    workers, events := Extend(workers, events, Spawns);
    workers, events := Extend(workers, events, JobRead);
    workers, events := Extend(workers, events, ConfigRead);
    workers, events := Extend(workers, events, Logs(first));
    workers, events := Extend(workers, events, CommitLands);
    workers, events := Extend(workers, events, Logs(second));
    workers, events := Extend(workers, events, Returns(elapsedMs));
    HeardFrom(workers[|events|], first, second);
  }

  lemma HeardFrom(w: Worker, first: string, second: string)
    requires w.phase.Exited? && |w.printed| == 3 && w.printed[2].ResultOk?
    requires w.printed[0] == Noise(first) && w.printed[1] == Noise(second)
    ensures ExitOf(w, 3, "", None) == Exit(w.committed, ReportOk)
    ensures ExitOf(w, 2, "crashed", None) == Exit(w.committed, ReportFailed("prefetch_worker_no_result:crashed"))
  {
    var all, heard := w.printed[..3], w.printed[..2];
    assert all[|all| - 1] == w.printed[2];
    assert LastResult(all) == Some(w.printed[2]);
    assert heard[|heard| - 1] == Noise(second) && heard[..|heard| - 1] == [Noise(first)];
    assert [Noise(first)][..0] == [];
    assert LastResult([Noise(first)]) == None;
    assert LastResult(heard) == None;
    assert NO_RESULT + "crashed" == "prefetch_worker_no_result:crashed";
  }
}
