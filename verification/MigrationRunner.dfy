/** One run of the migration runner, statement by statement, on a connection that may fail at any of them. */
module MigrationRunner {
  import opened Wrappers
  import opened Migrations

  class Database {
    var schema: seq<string>
    var versions: set<string>
    /** How many statements succeed before the connection is lost; `None` when it is not. */
    var statementsLeft: Option<nat>
    /** Whether a COMMIT lands whose answer the lost connection does not bring. */
    const landsUnanswered: bool

    constructor (applied: seq<string>, recorded: set<string>, left: Option<nat>, landsUnanswered: bool)
      ensures schema == applied && versions == recorded && statementsLeft == left
      ensures this.landsUnanswered == landsUnanswered
    {
      schema, versions, statementsLeft := applied, recorded, left;
      this.landsUnanswered := landsUnanswered;
    }

    /** The first `n` files applied in order, and exactly those recorded. */
    ghost predicate Agrees(c: Setup, n: nat)
      reads `schema, `versions
    {
      n <= |c.files| && schema == c.files[..n] && versions == Names(c, n)
    }

    method Statement() returns (ok: bool)
      modifies `statementsLeft
      ensures old(statementsLeft).None? ==> ok && statementsLeft.None?
    {
      match statementsLeft
      case None => ok := true;
      case Some(n) =>
        ok := n > 0;
        if ok {
          statementsLeft := Some(n - 1);
        }
    }

    /** Records every file when there is a schema and no version. */
    method Baseline(c: Setup) returns (ok: bool)
      modifies `versions, `statementsLeft
      ensures old(versions) != {} || c.marker !in schema ==> versions == old(versions)
      ensures ok && old(versions) == {} && c.marker in schema ==> versions == Names(c, |c.files|)
      ensures old(statementsLeft).None? ==> ok && statementsLeft.None?
    {
      ok := Statement();
      if !ok || versions != {} {
        return;
      }
      ok := Statement();
      if !ok || c.marker !in schema {
        return;
      }
      for i := 0 to |c.files|
        invariant ok && versions == Names(c, i)
        invariant old(statementsLeft).None? ==> statementsLeft.None?
      {
        NamesGrow(c, i);
        ok := Statement();
        if !ok {
          return;
        }
        versions := versions + {c.files[i]};
      }
    }

    /** One file in one transaction: applied and recorded together or not at all. */
    method Apply(file: string) returns (ok: bool, ghost landed: bool)
      modifies `schema, `versions, `statementsLeft
      ensures landed ==> schema == old(schema) + [file] && versions == old(versions) + {file}
      ensures !landed ==> schema == old(schema) && versions == old(versions)
      ensures ok ==> landed
      ensures landed && !ok ==> landsUnanswered
      ensures old(statementsLeft).None? ==> ok && statementsLeft.None?
    {
      var before, recorded := schema, versions;
      ok := Statement();
      if ok {
        ok := Statement();
      }
      if ok {
        schema := schema + [file];
        ok := Statement();
      }
      var sent := ok;
      if ok {
        versions := versions + {file};
        ok := Statement(); // COMMIT
      }
      var kept := ok || (sent && landsUnanswered);
      landed := kept;
      if !kept {
        schema, versions := before, recorded;
      }
    }

    /**
     * From a database that agrees with the files: a run that returns normally has applied all of
     * them, one that fails leaves the database agreeing, and without a fault it returns normally.
     */
    method RunPending(c: Setup, ghost n: nat) returns (ok: bool)
      requires ValidSetup(c) && Agrees(c, n)
      modifies this
      ensures ok ==> Agrees(c, |c.files|)
      ensures exists m: nat :: n <= m && Agrees(c, m)
      ensures old(statementsLeft).None? ==> ok
    {
      ok := Statement();
      if ok {
        NoBaseline(c, State(schema, versions, None, map[]));
        ok := Baseline(c);
      }
      assert Agrees(c, n);
      if !ok {
        return;
      }
      var applied := versions;
      for i := 0 to |c.files|
        invariant ok && Agrees(c, Max(n, i))
        invariant old(statementsLeft).None? ==> statementsLeft.None?
      {
        InNames(c, n, i);
        if c.files[i] in applied {
          continue;
        }
        assert Max(n, i) == i;
        NamesGrow(c, i);
        ghost var landed;
        ok, landed := Apply(c.files[i]);
        if !ok {
          assert Agrees(c, if landed then i + 1 else i);
          return;
        }
      }
      assert Max(n, |c.files|) == |c.files|;
    }
  }
}
