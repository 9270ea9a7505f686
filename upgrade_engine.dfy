/**
 * `UpgradeEngine`: the configured providers, journal and executor, and the runs over
 * them. The connection scope (`OperationStarting`) and the log are not modelled; every
 * exception the `try` blocks catch is a failed `Outcome` or `Result` here.
 */
module UpgradeEngine {
  import opened Wrappers
  import opened Migrations
  import opened MigrationScripts
  import opened Journals
  import opened Executors
  import opened ScriptProviders
  import opened UpgradePlanner
  import opened UpgradeRun

  class UpgradeEngine {
    const providers: seq<ScriptProvider>
    const journal: Journal
    const executor: ScriptExecutor

    /** What the runs observe and change. */
    function Observed(): World
      reads Repr(journal), executor
    {
      World(State(journal), executor.calls, executor.verifications)
    }

    ghost predicate Valid()
      reads Repr(journal)
    {
      Journals.Valid(journal)
    }

    constructor (providers: seq<ScriptProvider>, journal: Journal, executor: ScriptExecutor)
      requires Journals.Valid(journal)
      ensures Valid() && this.providers == providers && this.journal == journal && this.executor == executor
    {
      this.providers := providers;
      this.journal := journal;
      this.executor := executor;
    }

    method GetDBMigrationsToExecuteInsideOperation(toVersionId: int, step: ExecutionStep)
      returns (r: Result<seq<DBMigrationScript>, Error>)
      requires Valid()
      modifies Repr(journal)
      ensures Valid()
      ensures (r, State(journal)) == PlanInOperation(providers, toVersionId, step, old(State(journal)))
    {
      var all := AllMigrations(providers);
      if all.Err? {
        return Err(all.error);
      }
      var migrated := GetMigratedDBVersions(journal);
      if migrated.Err? {
        return Err(migrated.error);
      }
      r := Ok(Plan(all.value, migrated.value, toVersionId, step));
    }

    method PerformDBMigration(toVersionId: int, step: ExecutionStep) returns (result: UpgradeResult<DBMigrationScript>)
      requires Valid()
      modifies Repr(journal), executor
      ensures Valid()
      ensures (result, Observed()) == UpgradeRun.PerformDBMigration(providers, toVersionId, step, old(Observed()), executor.faults)
    {
      var planned := GetDBMigrationsToExecuteInsideOperation(toVersionId, step);
      if planned.Err? {
        return Failed(planned.error);
      }
      result := ExecutePlan(planned.value);
    }

    /** `PerformDBMigration` from the plan on: the empty-plan exit, `VerifySchema`, then the loop. */
    method ExecutePlan(migrations: seq<DBMigrationScript>) returns (result: UpgradeResult<DBMigrationScript>)
      requires Valid()
      modifies Repr(journal), executor
      ensures Valid()
      ensures (result, Observed()) == UpgradeRun.ExecutePlan(migrations, old(Observed()), executor.faults)
    {
      if |migrations| == 0 {
        return UpgradeResult([], true, None);
      }
      var verified := executor.VerifySchema();
      if verified.Fail? {
        return Failed(verified.error);
      }
      var executed, stopped := ExecuteMigrations(migrations);
      result := UpgradeResult(executed, stopped.None?, stopped);
    }

    /** The `foreach` of `PerformDBMigration`: the executed list grows by one per completed step. */
    method ExecuteMigrations(migrations: seq<DBMigrationScript>) returns (executed: seq<DBMigrationScript>, stopped: Option<UpgradeError>)
      requires Valid()
      modifies Repr(journal), executor
      ensures Valid()
      ensures Walk(executed, stopped, Observed()) == RunMigrations(migrations, old(Observed()), executor.faults)
    {
      executed := [];
      ghost var start := Observed();
      PrependAllNothing(RunMigrations(migrations, start, executor.faults));
      assert migrations[0..] == migrations;
      var i := 0;
      while i < |migrations|
        invariant 0 <= i <= |migrations| && executed == migrations[..i]
        invariant Valid()
        invariant RunMigrations(migrations, start, executor.faults)
                  == PrependAll(executed, RunMigrations(migrations[i..], Observed(), executor.faults))
      {
        var migration := migrations[i];
        assert migrations[i..][0] == migration && migrations[i..][1..] == migrations[i + 1..];
        ghost var before := Observed();
        stopped := PerformMigrationStep(migration);
        if stopped.Some? {
          return;
        }
        PrependAllSnoc(executed, migration, RunMigrations(migrations[i + 1..], Observed(), executor.faults));
        executed := executed + [migration];
        i := i + 1;
      }
      assert migrations[i..] == [];
      stopped := None;
    }

    /**
     * The body of the `PerformDBMigration` loop for one step: the dependency check, the
     * execution of the Up or Down text, the journal write.
     */
    method PerformMigrationStep(migration: DBMigrationScript) returns (stopped: Option<UpgradeError>)
      requires Valid()
      modifies Repr(journal), executor
      ensures Valid()
      ensures match MigrationStep(migration, old(Observed()), executor.faults)
              case Completed(w) => stopped.None? && Observed() == w
              case Stopped(e, w) => stopped == Some(e) && Observed() == w
    {
      var executedScriptName := Some(migration.name);
      var sqlScript := if migration.performType == Up then SqlScript(migration.name, migration.upScript)
                       else SqlScript(migration.name, migration.downScript);
      if migration.dependentSchemaVersionId.Some? {
        var dep := migration.dependentSchemaVersionId.value;
        var found := HasDBVersionMigrated(journal, dep, Schema);
        if found.Err? {
          return Some(UpgradeError(found.error, executedScriptName));
        }
        if !found.value {
          return Some(UpgradeError(DependencyMissing(dep, migration.name), None));
        }
      }
      var ran := executor.Execute(sqlScript);
      if ran.Fail? {
        return Some(UpgradeError(ran.error, executedScriptName));
      }
      var stored := StoreExecutedMigrationScript(journal, migration);
      if stored.Fail? {
        return Some(UpgradeError(stored.error, executedScriptName));
      }
      stopped := None;
    }
  
    // ---- the legacy script path ----

    method GetScriptsToExecuteInsideOperation() returns (r: Result<seq<SqlScript>, Error>)
      requires Valid()
      modifies Repr(journal)
      ensures Valid()
      ensures (r, State(journal)) == PendingInOperation(providers, old(State(journal)))
    {
      var migrated := GetMigratedDBVersions(journal);
      if migrated.Err? {
        return Err(migrated.error);
      }
      var allScripts := AllScripts(providers);
      if allScripts.Err? {
        return Err(allScripts.error);
      }
      r := Ok(PendingScripts(allScripts.value, migrated.value));
    }

    method IsUpgradeRequired() returns (r: Result<bool, Error>)
      requires Valid()
      modifies Repr(journal)
      ensures Valid()
      ensures (r, State(journal)) == UpgradeRun.IsUpgradeRequired(providers, old(State(journal)))
    {
      var scripts := GetScriptsToExecuteInsideOperation();
      if scripts.Err? {
        return Err(scripts.error);
      }
      r := Ok(|scripts.value| != 0);
    }

    method PerformUpgrade() returns (result: UpgradeResult<SqlScript>)
      requires Valid()
      modifies Repr(journal), executor
      ensures Valid()
      ensures (result, Observed()) == UpgradeRun.PerformUpgrade(providers, old(Observed()), executor.faults)
    {
      var pending := GetScriptsToExecuteInsideOperation();
      if pending.Err? {
        return Failed(pending.error);
      }
      result := ExecuteScripts(pending.value);
    }

    /** `PerformUpgrade` from the pending list on. */
    method ExecuteScripts(scripts: seq<SqlScript>) returns (result: UpgradeResult<SqlScript>)
      requires Valid()
      modifies Repr(journal), executor
      ensures Valid()
      ensures (result, Observed()) == UpgradeRun.ExecuteScripts(scripts, old(Observed()), executor.faults)
    {
      if |scripts| == 0 {
        return UpgradeResult([], true, None);
      }
      var verified := executor.VerifySchema();
      if verified.Fail? {
        return Failed(verified.error);
      }
      var executed, stopped := RunScriptLoop(scripts);
      result := UpgradeResult(executed, stopped.None?, stopped);
    }

    /** The `foreach` of `PerformUpgrade`: execute, journal, append. */
    method RunScriptLoop(scripts: seq<SqlScript>) returns (executed: seq<SqlScript>, stopped: Option<UpgradeError>)
      requires Valid()
      modifies Repr(journal), executor
      ensures Valid()
      ensures Walk(executed, stopped, Observed()) == RunScripts(scripts, old(Observed()), executor.faults)
    {
      executed := [];
      ghost var start := Observed();
      PrependAllNothing(RunScripts(scripts, start, executor.faults));
      assert scripts[0..] == scripts;
      var i := 0;
      while i < |scripts|
        invariant 0 <= i <= |scripts| && executed == scripts[..i]
        invariant Valid()
        invariant RunScripts(scripts, start, executor.faults)
                  == PrependAll(executed, RunScripts(scripts[i..], Observed(), executor.faults))
      {
        var script := scripts[i];
        assert scripts[i..][0] == script && scripts[i..][1..] == scripts[i + 1..];
        var executedScriptName := Some(script.name);
        var ran := executor.Execute(script);
        if ran.Fail? {
          return executed, Some(UpgradeError(ran.error, executedScriptName));
        }
        var stored := StoreExecutedScript(journal, script);
        if stored.Fail? {
          return executed, Some(UpgradeError(stored.error, executedScriptName));
        }
        PrependAllSnoc(executed, script, RunScripts(scripts[i + 1..], Observed(), executor.faults));
        executed := executed + [script];
        i := i + 1;
      }
      assert scripts[i..] == [];
      stopped := None;
    }

    method MarkAsExecuted() returns (result: UpgradeResult<SqlScript>)
      requires Valid()
      modifies Repr(journal)
      ensures Valid()
      ensures (result, Observed()) == UpgradeRun.MarkAsExecuted(providers, None, old(Observed()))
    {
      var pending := GetScriptsToExecuteInsideOperation();
      if pending.Err? {
        return Failed(pending.error);
      }
      var marked, stopped := MarkLoop(pending.value, None);
      result := UpgradeResult(marked, stopped.None?, stopped);
    }

    /** `MarkAsExecuted(string latestScript)`. */
    method MarkAsExecutedUpTo(latestScript: string) returns (result: UpgradeResult<SqlScript>)
      requires Valid()
      modifies Repr(journal)
      ensures Valid()
      ensures (result, Observed()) == UpgradeRun.MarkAsExecuted(providers, Some(latestScript), old(Observed()))
    {
      var pending := GetScriptsToExecuteInsideOperation();
      if pending.Err? {
        return Failed(pending.error);
      }
      var marked, stopped := MarkLoop(pending.value, Some(latestScript));
      result := UpgradeResult(marked, stopped.None?, stopped);
    }

    /** The marking `foreach`: journal, append, and `break` after the script named `latest`. */
    method MarkLoop(scripts: seq<SqlScript>, latest: Option<string>) returns (marked: seq<SqlScript>, stopped: Option<UpgradeError>)
      requires Valid()
      modifies Repr(journal)
      ensures Valid()
      ensures Walk(marked, stopped, Observed()) == MarkScripts(scripts, latest, old(Observed()))
    {
      marked := [];
      ghost var start := Observed();
      PrependAllNothing(MarkScripts(scripts, latest, start));
      assert scripts[0..] == scripts;
      var i := 0;
      while i < |scripts|
        invariant 0 <= i <= |scripts| && marked == scripts[..i]
        invariant Valid()
        invariant MarkScripts(scripts, latest, start)
                  == PrependAll(marked, MarkScripts(scripts[i..], latest, Observed()))
      {
        var script := scripts[i];
        assert scripts[i..][0] == script && scripts[i..][1..] == scripts[i + 1..];
        var stored := StoreExecutedScript(journal, script);
        if stored.Fail? {
          return marked, Some(UpgradeError(stored.error, None));
        }
        if latest == Some(script.name) {
          PrependAllNothing(MarkScripts([], latest, Observed()));
          assert [script] + [] == [script];
          return marked + [script], None;
        }
        PrependAllSnoc(marked, script, MarkScripts(scripts[i + 1..], latest, Observed()));
        marked := marked + [script];
        i := i + 1;
      }
      assert scripts[i..] == [];
      stopped := None;
    }
  }
}
