/**
 * A run of the migration runner that nothing interrupts: no error, no crash and no other process.
 * It applies what is missing; on a schema without versions it records everything it ships instead.
 */
module MigrationAlone {
  import opened Wrappers
  import opened Migrations

  /** A step of process `p` that goes well. */
  predicate GoesWell(e: Event, p: nat) {
    e.p == p && !e.Fail? && !e.Crash? && !e.CommitUnanswered? && !e.UnlockFails? && !e.StartAgain?
  }

  /** Some steps of `p` that go well, one after the other, take `s` to `u`. */
  ghost predicate Leads(c: Setup, s: State, events: seq<Event>, u: State, p: nat)
    decreases |events|
  {
    if events == [] then u == s
    else GoesWell(events[0], p) && Enabled(c, s, events[0]) && Leads(c, Next(c, s, events[0]), events[1..], u, p)
  }

  ghost predicate Reaches(c: Setup, s: State, u: State, p: nat) {
    exists events :: Leads(c, s, events, u, p)
  }

  lemma Stays(c: Setup, s: State, p: nat)
    ensures Reaches(c, s, s, p)
  {
    assert Leads(c, s, [], s, p);
  }

  lemma Steps(c: Setup, s: State, e: Event, u: State, p: nat)
    requires GoesWell(e, p) && Enabled(c, s, e) && Reaches(c, Next(c, s, e), u, p)
    ensures Reaches(c, s, u, p)
  {
    hide Enabled, Next;
    var events :| Leads(c, Next(c, s, e), events, u, p);
    assert ([e] + events)[1..] == events;
    assert Leads(c, s, [e] + events, u, p);
  }

  ghost predicate Holds(s: State, p: nat, phase: Phase) {
    p in s.phases && s.phases[p] == phase
  }

  /** The database and the lock at the end, with the process back. */
  function Ended(s: State, p: nat, schema: seq<string>, versions: set<string>): State {
    s.(schema := schema, versions := versions, lock := None, phases := s.phases[p := Returned(true)])
  }

  lemma EndsAlone(c: Setup, s: State, p: nat, applied: set<string>)
    requires ValidSetup(c) && Holds(s, p, At(applied, c.shipped(p)))
    ensures Reaches(c, s, Ended(s, p, s.schema, s.versions), p)
  {
    hide Reaches;
    var t := Goto(s, p, Unlocking(true));
    var u := Ended(s, p, s.schema, s.versions);
    assert Next(c, s, EndLoop(p)) == t;
    assert Next(c, t, Unlock(p)).phases == u.phases;
    Stays(c, u, p);
    Steps(c, t, Unlock(p), u, p);
    Steps(c, s, EndLoop(p), u, p);
  }

  lemma FinishesOne(c: Setup, s: State, p: nat, applied: set<string>, i: nat, u: State)
    requires ValidSetup(c) && Holds(s, p, Ran(applied, i)) && i < c.shipped(p)
    requires Reaches(c, s.(schema := s.schema + [c.files[i]], versions := s.versions + {c.files[i]},
                           phases := s.phases[p := At(applied, i + 1)]), u, p)
    ensures Reaches(c, s, u, p)
  {
    hide Reaches;
    var recorded := Goto(s, p, Recorded(applied, i));
    assert recorded.phases[p := At(applied, i + 1)] == s.phases[p := At(applied, i + 1)];
    Steps(c, recorded, Commit(p), u, p);
    Steps(c, s, RecordVersion(p), u, p);
  }

  /** One file not yet applied: its transaction adds it to the schema and records it. */
  lemma AppliesOne(c: Setup, s: State, p: nat, applied: set<string>, i: nat, u: State)
    requires ValidSetup(c) && Holds(s, p, At(applied, i)) && i < c.shipped(p) && c.files[i] !in applied
    requires Reaches(c, s.(schema := s.schema + [c.files[i]], versions := s.versions + {c.files[i]},
                           phases := s.phases[p := At(applied, i + 1)]), u, p)
    ensures Reaches(c, s, u, p)
  {
    hide Reaches;
    var begun := Goto(s, p, Begun(applied, i));
    var ran := Goto(begun, p, Ran(applied, i));
    assert ran.phases[p := At(applied, i + 1)] == s.phases[p := At(applied, i + 1)];
    FinishesOne(c, ran, p, applied, i, u);
    Steps(c, begun, RunSql(p), u, p);
    Steps(c, s, Begin(p), u, p);
  }

  lemma SkipsOne(c: Setup, s: State, p: nat, applied: set<string>, i: nat, u: State)
    requires ValidSetup(c) && Holds(s, p, At(applied, i)) && i < c.shipped(p) && c.files[i] in applied
    requires Reaches(c, s.(phases := s.phases[p := At(applied, i + 1)]), u, p)
    ensures Reaches(c, s, u, p)
  {
    hide Reaches;
    assert Next(c, s, Skip(p)) == s.(phases := s.phases[p := At(applied, i + 1)]);
    Steps(c, s, Skip(p), u, p);
  }

  /** The files of `c` from `i` up to `m` that are not among `applied`. */
  ghost function Missing(c: Setup, applied: set<string>, i: nat, m: nat): seq<string>
    requires i <= m <= |c.files|
    decreases m - i
  {
    if i == m then [] else (if c.files[i] in applied then [] else [c.files[i]]) + Missing(c, applied, i + 1, m)
  }

  ghost function AsSet(files: seq<string>): set<string> {
    set f | f in files
  }

  /** The loop applies and records every file the process ships and has not read as applied, in order. */
  lemma {:induction false} LoopAlone(c: Setup, s: State, p: nat, applied: set<string>, i: nat)
    requires ValidSetup(c) && Holds(s, p, At(applied, i)) && i <= c.shipped(p)
    ensures var missing := Missing(c, applied, i, c.shipped(p));
            Reaches(c, s, Ended(s, p, s.schema + missing, s.versions + AsSet(missing)), p)
    decreases c.shipped(p) - i
  {
    hide Reaches, Enabled, Next;
    var m := c.shipped(p);
    var missing := Missing(c, applied, i, m);
    var u := Ended(s, p, s.schema + missing, s.versions + AsSet(missing));
    if i == m {
      EndsAlone(c, s, p, applied);
      assert s.schema + [] == s.schema && s.versions + AsSet([]) == s.versions;
    } else {
      var rest := Missing(c, applied, i + 1, m);
      var phases := s.phases[p := At(applied, i + 1)];
      assert phases[p := Returned(true)] == s.phases[p := Returned(true)];
      if c.files[i] in applied {
        assert [] + rest == rest;
        LoopAlone(c, s.(phases := phases), p, applied, i + 1);
        SkipsOne(c, s, p, applied, i, u);
      } else {
        var t := s.(schema := s.schema + [c.files[i]], versions := s.versions + {c.files[i]}, phases := phases);
        LoopAlone(c, t, p, applied, i + 1);
        assert t.schema + rest == s.schema + missing;
        assert t.versions + AsSet(rest) == s.versions + AsSet(missing);
        AppliesOne(c, s, p, applied, i, u);
      }
    }
  }

  /**
   * A run on a database with versions, or without the marker table: the files it ships that were
   * not recorded are applied, in order, and recorded; the run returns well and the lock is free.
   */
  lemma RunAlone(c: Setup, s: State, p: nat)
    requires ValidSetup(c) && s.lock.None? && (p in s.phases ==> s.phases[p] == Waiting)
    requires s.versions != {} || c.marker !in s.schema
    ensures var missing := Missing(c, s.versions, 0, c.shipped(p));
            Reaches(c, s, Ended(s, p, s.schema + missing, s.versions + AsSet(missing)), p)
  {
    hide Reaches;
    var missing := Missing(c, s.versions, 0, c.shipped(p));
    var u := Ended(s, p, s.schema + missing, s.versions + AsSet(missing));
    var locked := s.(lock := Some(p), phases := s.phases[p := Locked]);
    var reading := locked.(phases := s.phases[p := Reading]);
    var looping := locked.(phases := s.phases[p := At(s.versions, 0)]);
    assert Next(c, s, Acquire(p)) == locked;
    assert Next(c, locked, CheckBaseline(p)).phases == reading.phases;
    assert Next(c, reading, ReadApplied(p)).phases == looping.phases;
    LoopAlone(c, looping, p, s.versions, 0);
    assert looping.phases[p := Returned(true)] == s.phases[p := Returned(true)];
    Steps(c, reading, ReadApplied(p), u, p);
    Steps(c, locked, CheckBaseline(p), u, p);
    Steps(c, s, Acquire(p), u, p);
  }

  lemma {:induction false} RecordsAll(c: Setup, s: State, p: nat, i: nat, u: State)
    requires ValidSetup(c) && Holds(s, p, Baselining(i)) && i <= c.shipped(p)
    requires Reaches(c, s.(versions := s.versions + AsSet(c.files[i..c.shipped(p)]), phases := s.phases[p := Reading]), u, p)
    ensures Reaches(c, s, u, p)
    decreases c.shipped(p) - i
  {
    hide Reaches;
    var m := c.shipped(p);
    if i == m {
      assert s.versions + AsSet(c.files[i..m]) == s.versions;
      assert Next(c, s, EndBaseline(p)) == s.(phases := s.phases[p := Reading]);
      Steps(c, s, EndBaseline(p), u, p);
    } else {
      var t := s.(versions := s.versions + {c.files[i]}, phases := s.phases[p := Baselining(i + 1)]);
      assert c.files[i..m] == [c.files[i]] + c.files[i + 1..m];
      assert t.versions + AsSet(c.files[i + 1..m]) == s.versions + AsSet(c.files[i..m]);
      assert t.phases[p := Reading] == s.phases[p := Reading];
      RecordsAll(c, t, p, i + 1, u);
      assert Next(c, s, RecordBaseline(p)) == t;
      Steps(c, s, RecordBaseline(p), u, p);
    }
  }

  lemma {:induction false} NothingMissing(c: Setup, applied: set<string>, i: nat, m: nat)
    requires i <= m <= |c.files| && forall k :: i <= k < m ==> c.files[k] in applied
    ensures Missing(c, applied, i, m) == []
    decreases m - i
  {
    if i < m {
      NothingMissing(c, applied, i + 1, m);
    }
  }

  /** Behind the branch the loop finds everything recorded. */
  lemma ReadsAllRecorded(c: Setup, s: State, p: nat)
    requires ValidSetup(c) && Holds(s, p, Reading) && s.versions == AsSet(c.files[..c.shipped(p)])
    ensures Reaches(c, s, Ended(s, p, s.schema, s.versions), p)
  {
    hide Reaches;
    var m := c.shipped(p);
    forall k | 0 <= k < m
      ensures c.files[k] in s.versions
    {
      assert c.files[..m][k] == c.files[k];
    }
    NothingMissing(c, s.versions, 0, m);
    var looping := s.(phases := s.phases[p := At(s.versions, 0)]);
    LoopAlone(c, looping, p, s.versions, 0);
    assert s.schema + [] == s.schema && s.versions + AsSet([]) == s.versions;
    assert looping.phases[p := Returned(true)] == s.phases[p := Returned(true)];
    Steps(c, s, ReadApplied(p), Ended(s, p, s.schema, s.versions), p);
  }

  /** A run on a schema with the marker table and no versions: all it ships is recorded, nothing is applied. */
  lemma BaselineAlone(c: Setup, s: State, p: nat)
    requires ValidSetup(c) && s.lock.None? && (p in s.phases ==> s.phases[p] == Waiting)
    requires s.versions == {} && c.marker in s.schema
    ensures Reaches(c, s, Ended(s, p, s.schema, AsSet(c.files[..c.shipped(p)])), p)
  {
    hide Reaches;
    var m := c.shipped(p);
    var versions := AsSet(c.files[..m]);
    var u := Ended(s, p, s.schema, versions);
    var locked := Goto(s.(lock := Some(p)), p, Locked);
    var recording := Goto(locked, p, Baselining(0));
    var reading := Goto(recording, p, Reading).(versions := versions);
    assert c.files[0..m] == c.files[..m] && s.versions + versions == versions;
    ReadsAllRecorded(c, reading, p);
    assert reading.phases[p := Returned(true)] == s.phases[p := Returned(true)];
    RecordsAll(c, recording, p, 0, u);
    Steps(c, locked, CheckBaseline(p), u, p);
    Steps(c, s, Acquire(p), u, p);
  }
}
