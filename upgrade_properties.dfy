/**
 * What the engine's runs promise, proved about the functions of `UpgradeRun` (which the
 * `UpgradeEngine` methods are proved to follow): how far a run gets and where it stops,
 * what it asks the executor to run, what it leaves in the journal, and what the two
 * kinds of provider and the null journal make of each entry point.
 */
module UpgradeProperties {
  import opened Wrappers
  import opened Migrations
  import opened MigrationScripts
  import opened Journals
  import opened Executors
  import opened ScriptProviders
  import opened UpgradePlanner
  import opened UpgradeRun
  import MySqlJournal

  /** The journal after storing each of `ms` in turn. */
  function Applied(ms: seq<DBMigrationScript>, s: JournalState): JournalState {
    if ms == [] then s else Applied(ms[1..], StoreMigration(s, ms[0]).1)
  }

  // ---- one step ----

  /** Storing first creates the table, so a preceding query that created it changes nothing. */
  lemma StoreAbsorbsTouch(s: JournalState, m: DBMigrationScript)
    ensures StoreMigration(Touched(s), m) == StoreMigration(s, m)
  {
    if s.TableState? {
      assert MySqlJournal.Created(MySqlJournal.Created(s.table)) == MySqlJournal.Created(s.table);
    }
  }

  lemma {:induction false} AppliedAbsorbsTouch(ms: seq<DBMigrationScript>, s: JournalState)
    ensures ms != [] ==> Applied(ms, Touched(s)) == Applied(ms, s)
    ensures Rows(Applied(ms, Touched(s))) == Rows(Applied(ms, s))
  {
    if ms != [] {
      StoreAbsorbsTouch(s, ms[0]);
    }
  }

  /**
   * A completed step ran its script once and journalled it; a stopped step ran its script
   * at most once and left the journal as it was, apart from creating a missing table.
   * The schema check is never repeated.
   */
  lemma StepEffects(m: DBMigrationScript, w: World, faults: ExecutorFaults)
    ensures MigrationStep(m, w, faults).world.verifications == w.verifications
    ensures MigrationStep(m, w, faults).Completed? ==>
      MigrationStep(m, w, faults).world.journal == StoreMigration(w.journal, m).1
      && MigrationStep(m, w, faults).world.calls == w.calls + [StepScript(m)]
    ensures MigrationStep(m, w, faults).Stopped? ==>
      (MigrationStep(m, w, faults).world.journal == w.journal || MigrationStep(m, w, faults).world.journal == Touched(w.journal))
      && (MigrationStep(m, w, faults).world.calls == w.calls || MigrationStep(m, w, faults).world.calls == w.calls + [StepScript(m)])
  {
    QueriesKeepRows(w.journal, 0, Schema);
    StoreAbsorbsTouch(w.journal, m);
  }

  /**
   * The exception that stops a step names it: the catch block attaches the step's name,
   * and a missing dependency is reported with the step's name inside the error.
   */
  lemma StopNamesTheStep(m: DBMigrationScript, w: World, faults: ExecutorFaults)
    requires MigrationStep(m, w, faults).Stopped?
    ensures var e := MigrationStep(m, w, faults).error;
      e.script == Some(m.name)
      || (m.dependentSchemaVersionId.Some? && e == UpgradeError(DependencyMissing(m.dependentSchemaVersionId.value, m.name), None))
  {
  }

  /**
   * A data step whose schema version is not journalled is neither executed nor journalled:
   * the run stops with `DependencyMissing` and the executor log unchanged.
   */
  lemma MissingDependencyRunsNothing(m: DBMigrationScript, w: World, faults: ExecutorFaults)
    requires m.dependentSchemaVersionId.Some? && w.journal.TableState?
    requires !MySqlJournal.HasVersion(w.journal.table, m.dependentSchemaVersionId.value, Schema)
    ensures MigrationStep(m, w, faults)
         == Stopped(UpgradeError(DependencyMissing(m.dependentSchemaVersionId.value, m.name), None), w.(journal := Touched(w.journal)))
    ensures Rows(MigrationStep(m, w, faults).world.journal) == Rows(w.journal)
  {
  }

  // ---- the migration walk ----

  /**
   * The walk completes a prefix of its steps; it succeeds exactly when it completes all
   * of them, and an exception leaves at least one step undone.
   */
  lemma {:induction false} RunMigrationsPrefix(steps: seq<DBMigrationScript>, w: World, faults: ExecutorFaults)
    ensures var r := RunMigrations(steps, w, faults);
      |r.done| <= |steps| && r.done == steps[..|r.done|]
      && (r.error.None? <==> r.done == steps)
      && (r.error.Some? ==> |r.done| < |steps|)
  {
    if steps != [] {
      match MigrationStep(steps[0], w, faults)
      case Stopped(e, w1) =>
      case Completed(w1) =>
        RunMigrationsPrefix(steps[1..], w1, faults);
        var r := RunMigrations(steps[1..], w1, faults);
        assert steps == [steps[0]] + steps[1..];
        assert ([steps[0]] + r.done == steps) <==> (r.done == steps[1..]);
    }
  }

  /**
   * An exception stops the walk at the first step it did not complete: the prefix before
   * it completes on its own, and that step, run on the world this prefix leaves, stops
   * with the very error and world the walk returns.
   */
  lemma {:induction false} RunMigrationsStopsAtStep(steps: seq<DBMigrationScript>, w: World, faults: ExecutorFaults)
    requires RunMigrations(steps, w, faults).error.Some?
    ensures var r := RunMigrations(steps, w, faults);
      var k := |r.done|;
      k < |steps|
      && RunMigrations(steps[..k], w, faults).error.None?
      && MigrationStep(steps[k], RunMigrations(steps[..k], w, faults).world, faults) == Stopped(r.error.value, r.world)
  {
    RunMigrationsPrefix(steps, w, faults);
    match MigrationStep(steps[0], w, faults)
    case Stopped(e, w1) =>
      assert steps[..0] == [];
    case Completed(w1) =>
      var rest := steps[1..];
      RunMigrationsStopsAtStep(rest, w1, faults);
      var k := |RunMigrations(rest, w1, faults).done|;
      assert steps[..k + 1][0] == steps[0] && steps[..k + 1][1..] == rest[..k];
      assert steps[k + 1] == rest[k];
  }

  /** The step the walk stops at is named in its error. */
  lemma FailedStepIsNamed(steps: seq<DBMigrationScript>, w: World, faults: ExecutorFaults)
    requires RunMigrations(steps, w, faults).error.Some?
    ensures var r := RunMigrations(steps, w, faults);
      |r.done| < |steps|
      && var m := steps[|r.done|];
      var e := r.error.value;
      e.script == Some(m.name)
      || (m.dependentSchemaVersionId.Some? && e == UpgradeError(DependencyMissing(m.dependentSchemaVersionId.value, m.name), None))
  {
    RunMigrationsStopsAtStep(steps, w, faults);
    var r := RunMigrations(steps, w, faults);
    var k := |r.done|;
    StopNamesTheStep(steps[k], RunMigrations(steps[..k], w, faults).world, faults);
  }

  /**
   * The executor is asked to run the completed steps' scripts in order, plus, when the
   * walk stops, at most the script of the step it stopped at; the schema check is never
   * repeated.
   */
  lemma {:induction false} RunMigrationsCalls(steps: seq<DBMigrationScript>, w: World, faults: ExecutorFaults)
    ensures var r := RunMigrations(steps, w, faults);
      r.world.verifications == w.verifications
      && (r.world.calls == w.calls + StepScripts(r.done)
          || (|r.done| < |steps| && r.world.calls == w.calls + StepScripts(r.done) + [StepScript(steps[|r.done|])]))
      && (r.error.None? ==> r.world.calls == w.calls + StepScripts(r.done))
  {
    RunMigrationsPrefix(steps, w, faults);
    if steps == [] {
      assert w.calls + [] == w.calls;
    } else {
      StepEffects(steps[0], w, faults);
      match MigrationStep(steps[0], w, faults)
      case Stopped(e, w1) =>
        assert w.calls + StepScripts([]) == w.calls;
      case Completed(w1) =>
        RunMigrationsCalls(steps[1..], w1, faults);
        var r := RunMigrations(steps[1..], w1, faults);
        CallsOfCompletedStep(w.calls, steps, r.done, r.world.calls);
    }
  }

  /** The bookkeeping of one completed step in front of the rest of the walk. */
  lemma CallsOfCompletedStep(calls: seq<SqlScript>, steps: seq<DBMigrationScript>, done: seq<DBMigrationScript>, after: seq<SqlScript>)
    requires steps != [] && |done| <= |steps| - 1
    requires after == calls + [StepScript(steps[0])] + StepScripts(done)
          || (|done| < |steps| - 1 && after == calls + [StepScript(steps[0])] + StepScripts(done) + [StepScript(steps[1..][|done|])])
    ensures after == calls + StepScripts([steps[0]] + done)
         || (|done| + 1 < |steps| && after == calls + StepScripts([steps[0]] + done) + [StepScript(steps[|done| + 1])])
  {
    var x := StepScript(steps[0]);
    var rest := StepScripts(done);
    StepScriptsCons(steps[0], done);
    assert calls + [x] + rest == calls + ([x] + rest);
  }

  lemma StepScriptsCons(m: DBMigrationScript, done: seq<DBMigrationScript>)
    ensures StepScripts([m] + done) == [StepScript(m)] + StepScripts(done)
  {
    assert ([m] + done)[1..] == done;
  }

  /**
   * The journal records the completed steps and nothing else: it ends as if each completed
   * step had been stored in turn, the table possibly created by a query on the way.
   */
  lemma {:induction false} RunMigrationsJournal(steps: seq<DBMigrationScript>, w: World, faults: ExecutorFaults)
    ensures var r := RunMigrations(steps, w, faults);
      r.world.journal == Applied(r.done, w.journal) || r.world.journal == Touched(Applied(r.done, w.journal))
    ensures Rows(RunMigrations(steps, w, faults).world.journal) == Rows(Applied(RunMigrations(steps, w, faults).done, w.journal))
  {
    if steps != [] {
      StepEffects(steps[0], w, faults);
      match MigrationStep(steps[0], w, faults)
      case Stopped(e, w1) =>
      case Completed(w1) =>
        RunMigrationsJournal(steps[1..], w1, faults);
        var r := RunMigrations(steps[1..], w1, faults);
        assert ([steps[0]] + r.done)[1..] == r.done;
    }
  }

  /** With the null journal no data step can run: asking whether its schema is journalled throws. */
  lemma {:induction false} NullJournalStopsAtDataStep(steps: seq<DBMigrationScript>, w: World, faults: ExecutorFaults)
    requires w.journal.NullState?
    requires exists k :: 0 <= k < |steps| && steps[k].dependentSchemaVersionId.Some?
    ensures RunMigrations(steps, w, faults).error.Some?
  {
    if steps[0].dependentSchemaVersionId.None? {
      match MigrationStep(steps[0], w, faults)
      case Stopped(e, w1) =>
      case Completed(w1) =>
        StepEffects(steps[0], w, faults);
        var k :| 0 <= k < |steps| && steps[k].dependentSchemaVersionId.Some?;
        assert steps[1..][k - 1] == steps[k];
        NullJournalStopsAtDataStep(steps[1..], w1, faults);
    }
  }

  /** A step stopped by a missing dependency has not run and has stored nothing. */
  lemma DependencyStopChangesNothing(m: DBMigrationScript, w: World, faults: ExecutorFaults)
    requires MigrationStep(m, w, faults).Stopped? && MigrationStep(m, w, faults).error.cause.DependencyMissing?
    ensures MigrationStep(m, w, faults).world == w.(journal := Touched(w.journal))
  {
  }

  /**
   * When the walk stops at a data step whose schema is not journalled, exactly the steps
   * before it ran and were journalled; that step was neither executed nor journalled.
   */
  lemma MissingDependencyStopsBeforeStep(steps: seq<DBMigrationScript>, w: World, faults: ExecutorFaults)
    requires RunMigrations(steps, w, faults).error.Some?
    requires RunMigrations(steps, w, faults).error.value.cause.DependencyMissing?
    ensures var r := RunMigrations(steps, w, faults);
      r.world.calls == w.calls + StepScripts(r.done)
      && r.world.journal == Touched(Applied(r.done, w.journal))
  {
    RunMigrationsStopsAtStep(steps, w, faults);
    RunMigrationsPrefix(steps, w, faults);
    var r := RunMigrations(steps, w, faults);
    var k := |r.done|;
    assert steps[..k] == r.done;
    var before := RunMigrations(steps[..k], w, faults);
    RunMigrationsPrefix(steps[..k], w, faults);
    RunMigrationsCalls(steps[..k], w, faults);
    RunMigrationsJournal(steps[..k], w, faults);
    DependencyStopChangesNothing(steps[k], before.world, faults);
    QueriesKeepRows(Applied(r.done, w.journal), 0, Schema);
  }

  // ---- PerformDBMigration ----

  /**
   * Once the plan is known: a prefix of it runs, all of it exactly when the run reports
   * success, and then the executor ran exactly the plan's scripts; an empty plan is a
   * success that runs nothing and skips the schema check; the schema is checked once
   * before a non-empty plan; the journal holds the completed steps.
   */
  lemma ExecutePlanRunsPrefix(plan: seq<DBMigrationScript>, w: World, faults: ExecutorFaults)
    ensures var res := ExecutePlan(plan, w, faults).0;
      var w' := ExecutePlan(plan, w, faults).1;
      |res.scripts| <= |plan| && res.scripts == plan[..|res.scripts|]
      && (res.successful <==> res.error.None?)
      && (res.successful <==> res.scripts == plan)
      && (res.successful ==> w'.calls == w.calls + StepScripts(plan))
      && (plan == [] ==> res == UpgradeResult([], true, None) && w' == w)
      && (plan != [] ==> w'.verifications == w.verifications + 1)
      && Rows(w'.journal) == Rows(Applied(res.scripts, w.journal))
  {
    if plan != [] {
      var w1 := w.(verifications := w.verifications + 1);
      if faults.schemaInvalid {
        assert ExecutePlan(plan, w, faults) == (Failed(SchemaInvalid), w1);
      } else {
        var r := RunMigrations(plan, w1, faults);
        assert ExecutePlan(plan, w, faults) == (UpgradeRun.Outcome(r), r.world);
        WalkRunsPrefix(plan, w1, faults);
      }
    }
  }

  /** The three walk lemmas together, on the world the schema check leaves. */
  lemma WalkRunsPrefix(plan: seq<DBMigrationScript>, w1: World, faults: ExecutorFaults)
    ensures var r := RunMigrations(plan, w1, faults);
      |r.done| <= |plan| && r.done == plan[..|r.done|]
      && (r.error.None? <==> r.done == plan)
      && (r.error.None? ==> r.world.calls == w1.calls + StepScripts(plan))
      && r.world.verifications == w1.verifications
      && Rows(r.world.journal) == Rows(Applied(r.done, w1.journal))
  {
    RunMigrationsPrefix(plan, w1, faults);
    RunMigrationsCalls(plan, w1, faults);
    RunMigrationsJournal(plan, w1, faults);
  }

  /** `PerformDBMigration` reads the journal, then executes the plan it computed. */
  lemma PerformDBMigrationRunsPlanPrefix(providers: seq<ScriptProvider>, toVersionId: int, step: ExecutionStep,
                                         w: World, faults: ExecutorFaults, plan: seq<DBMigrationScript>)
    requires PlanInOperation(providers, toVersionId, step, w.journal).0 == Ok(plan)
    ensures var (res, w') := PerformDBMigration(providers, toVersionId, step, w, faults);
      |res.scripts| <= |plan| && res.scripts == plan[..|res.scripts|]
      && (res.successful <==> res.scripts == plan)
      && (res.successful ==> w'.calls == w.calls + StepScripts(plan))
      && (plan == [] ==> res == UpgradeResult([], true, None) && w'.calls == w.calls && w'.verifications == w.verifications)
      && (plan != [] ==> w'.verifications == w.verifications + 1)
      && Rows(w'.journal) == Rows(Applied(res.scripts, w.journal))
  {
    var w1 := w.(journal := Touched(w.journal));
    PerformDBMigrationExecutesPlan(providers, toVersionId, step, w, faults, plan);
    ExecutePlanRunsPrefix(plan, w1, faults);
    AppliedAbsorbsTouch(ExecutePlan(plan, w1, faults).0.scripts, w.journal);
  }

  /** Once the plan is computed, `PerformDBMigration` executes it on the journal the read left. */
  lemma PerformDBMigrationExecutesPlan(providers: seq<ScriptProvider>, toVersionId: int, step: ExecutionStep,
                                       w: World, faults: ExecutorFaults, plan: seq<DBMigrationScript>)
    requires PlanInOperation(providers, toVersionId, step, w.journal).0 == Ok(plan)
    ensures PerformDBMigration(providers, toVersionId, step, w, faults) == ExecutePlan(plan, w.(journal := Touched(w.journal)), faults)
  {
    assert PlanInOperation(providers, toVersionId, step, w.journal).1 == Touched(w.journal);
  }

  /**
   * A static provider cannot supply versioned migrations, so with one among the providers
   * `PerformDBMigration` fails before anything runs: no step, no call, and the journal is
   * not even read.
   */
  lemma StaticProviderFailsMigration(providers: seq<ScriptProvider>, toVersionId: int, step: ExecutionStep,
                                     w: World, faults: ExecutorFaults, k: nat)
    requires k < |providers| && providers[k].Static?
    ensures var (res, w') := PerformDBMigration(providers, toVersionId, step, w, faults);
      !res.successful && res.scripts == [] && res.error.Some? && res.error.value.script == None && w' == w
  {
    assert GetDBMigrations(providers[k]).Err?;
  }

  /** With the null journal a plan holding a data step never succeeds. */
  lemma NullJournalFailsDataMigrations(providers: seq<ScriptProvider>, toVersionId: int, step: ExecutionStep,
                                       w: World, faults: ExecutorFaults, plan: seq<DBMigrationScript>, k: nat)
    requires w.journal.NullState?
    requires PlanInOperation(providers, toVersionId, step, w.journal).0 == Ok(plan)
    requires k < |plan| && plan[k].dependentSchemaVersionId.Some?
    ensures !PerformDBMigration(providers, toVersionId, step, w, faults).0.successful
  {
    var w1 := w.(journal := Touched(w.journal));
    PerformDBMigrationExecutesPlan(providers, toVersionId, step, w, faults, plan);
    if !faults.schemaInvalid {
      var w2 := w1.(verifications := w1.verifications + 1);
      NullJournalStopsAtDataStep(plan, w2, faults);
      var r := RunMigrations(plan, w2, faults);
      assert ExecutePlan(plan, w1, faults) == (UpgradeRun.Outcome(r), r.world);
    }
  }

  // ---- running the migrations again ----

  /** Whether a name is journalled after storing each step in turn: Up adds it, Down removes it. */
  function JournalledAfter(steps: seq<DBMigrationScript>, name: string, before: bool): bool {
    if steps == [] then before
    else JournalledAfter(steps[1..], name, if steps[0].name == name then steps[0].performType == Up else before)
  }

  /** When every step under a name goes the same way, the last one decides; with none the name keeps its state. */
  lemma {:induction false} JournalledAfterOneKind(steps: seq<DBMigrationScript>, name: string, before: bool, p: PerformType)
    requires forall s :: s in steps && s.name == name ==> s.performType == p
    ensures JournalledAfter(steps, name, before) == if exists s :: s in steps && s.name == name then p == Up else before
  {
    if steps != [] {
      assert forall s :: s in steps <==> s == steps[0] || s in steps[1..];
      var next := if steps[0].name == name then steps[0].performType == Up else before;
      JournalledAfterOneKind(steps[1..], name, next, p);
    }
  }

  /** A completed step's journal write was accepted. */
  lemma CompletedStepStored(m: DBMigrationScript, w: World, faults: ExecutorFaults)
    requires MigrationStep(m, w, faults).Completed?
    ensures StoreMigration(w.journal, m).0 == Pass
    ensures MigrationStep(m, w, faults).world.journal == StoreMigration(w.journal, m).1
  {
    StoreAbsorbsTouch(w.journal, m);
  }

  /**
   * On the MySQL table a walk keeps every column filled, and a name ends journalled
   * exactly as the completed steps say; the step it stopped at changed no row.
   */
  lemma {:induction false} RunMigrationsNames(steps: seq<DBMigrationScript>, w: World, faults: ExecutorFaults, name: string)
    requires w.journal.TableState? && MySqlJournal.NoNulls(Rows(w.journal))
    ensures var r := RunMigrations(steps, w, faults);
      && r.world.journal.TableState? && MySqlJournal.NoNulls(Rows(r.world.journal))
      && (MySqlJournal.HasRowNamed(Rows(r.world.journal), name)
          <==> JournalledAfter(r.done, name, MySqlJournal.HasRowNamed(Rows(w.journal), name)))
  {
    if steps != [] {
      StepEffects(steps[0], w, faults);
      match MigrationStep(steps[0], w, faults)
      case Stopped(e, w1) =>
      case Completed(w1) =>
        CompletedStepStored(steps[0], w, faults);
        MySqlJournal.StoreMigrationNames(w.journal.table, steps[0], name);
        RunMigrationsNames(steps[1..], w1, faults, name);
        var r := RunMigrations(steps[1..], w1, faults);
        assert ([steps[0]] + r.done)[1..] == r.done;
    }
  }

  /** `PerformDBMigration` on the MySQL table: the names it journals are those its completed steps say. */
  lemma PerformDBMigrationNames(providers: seq<ScriptProvider>, toVersionId: int, step: ExecutionStep,
                                w: World, faults: ExecutorFaults, plan: seq<DBMigrationScript>, name: string)
    requires w.journal.TableState?
    requires PlanInOperation(providers, toVersionId, step, w.journal).0 == Ok(plan)
    ensures var res := PerformDBMigration(providers, toVersionId, step, w, faults).0;
      var j := PerformDBMigration(providers, toVersionId, step, w, faults).1.journal;
      && j.TableState? && MySqlJournal.NoNulls(Rows(j))
      && (MySqlJournal.HasRowNamed(Rows(j), name) <==> JournalledAfter(res.scripts, name, MySqlJournal.HasRowNamed(Rows(w.journal), name)))
  {
    MySqlJournal.ReadRecordsOrdered(w.journal.table);
    PerformDBMigrationExecutesPlan(providers, toVersionId, step, w, faults, plan);
    var w1 := w.(journal := Touched(w.journal));
    if plan != [] && !faults.schemaInvalid {
      var w2 := w1.(verifications := w1.verifications + 1);
      var r := RunMigrations(plan, w2, faults);
      assert ExecutePlan(plan, w1, faults) == (UpgradeRun.Outcome(r), r.world);
      RunMigrationsNames(plan, w2, faults, name);
    }
  }

  /** Re-planning one migration: a name some completed step carries stops being a candidate; any other keeps its state. */
  lemma MigrationAfterSteps(all: seq<Migration>, records: seq<Record>, records2: seq<Record>, toVersionId: int,
                            step: ExecutionStep, done: seq<DBMigrationScript>, m: Migration)
    requires UniqueFileNames(all) && m in StepFilter(all, step)
    requires forall d :: d in done ==> d in Plan(all, records, toVersionId, step)
    requires NotJournalled(records2, m.fileName) <==> !JournalledAfter(done, m.fileName, !NotJournalled(records, m.fileName))
    ensures (exists d :: d in done && d.name == m.fileName) ==>
      && !(NotJournalled(records2, m.fileName) && m.versionId <= toVersionId)
      && !(m.kind.SchemaMigration? && !NotJournalled(records2, m.fileName) && m.versionId > toVersionId)
    ensures (forall d :: d in done ==> d.name != m.fileName) ==>
      (NotJournalled(records2, m.fileName) <==> NotJournalled(records, m.fileName))
  {
    var before := !NotJournalled(records, m.fileName);
    PlanStepsOfMigration(all, records, toVersionId, step, m);
    if NotJournalled(records, m.fileName) && m.versionId <= toVersionId {
      JournalledAfterOneKind(done, m.fileName, before, Up);
    } else {
      JournalledAfterOneKind(done, m.fileName, before, Down);
    }
  }

  /** One step of `ReplanAfterSteps`. */
  lemma ReplanStep(all: seq<Migration>, records: seq<Record>, records2: seq<Record>, toVersionId: int,
                   step: ExecutionStep, done: seq<DBMigrationScript>, s: DBMigrationScript)
    requires UniqueFileNames(all)
    requires forall d :: d in done ==> d in Plan(all, records, toVersionId, step)
    requires forall m :: m in StepFilter(all, step) ==>
      (NotJournalled(records2, m.fileName) <==> !JournalledAfter(done, m.fileName, !NotJournalled(records, m.fileName)))
    ensures s in Plan(all, records2, toVersionId, step) <==>
      s in Plan(all, records, toVersionId, step) && forall d :: d in done ==> d.name != s.name
  {
    var ms := StepFilter(all, step);
    PlanMembers(all, records2, toVersionId, step, s);
    PlanMembers(all, records, toVersionId, step, s);
    if s in ForwardCandidates(ms, records2, toVersionId) {
      var m :| m in ms && NotJournalled(records2, m.fileName) && m.versionId <= toVersionId && s == UpScript(m);
      MigrationAfterSteps(all, records, records2, toVersionId, step, done, m);
    } else if s in RollbackCandidates(ms, records2, toVersionId) {
      var m :| m in ms && m.kind.SchemaMigration? && !NotJournalled(records2, m.fileName) && m.versionId > toVersionId
        && s == DownScript(m);
      MigrationAfterSteps(all, records, records2, toVersionId, step, done, m);
    } else if s in ForwardCandidates(ms, records, toVersionId) {
      var m :| m in ms && NotJournalled(records, m.fileName) && m.versionId <= toVersionId && s == UpScript(m);
      MigrationAfterSteps(all, records, records2, toVersionId, step, done, m);
    } else if s in RollbackCandidates(ms, records, toVersionId) {
      var m :| m in ms && m.kind.SchemaMigration? && !NotJournalled(records, m.fileName) && m.versionId > toVersionId
        && s == DownScript(m);
      MigrationAfterSteps(all, records, records2, toVersionId, step, done, m);
    }
  }

  /**
   * Planning again against the journal a run left: with unique file names, the first
   * plan's steps whose names the run journalled or rolled back drop out, every other step
   * of it is planned again, and nothing new appears.
   */
  lemma ReplanAfterSteps(all: seq<Migration>, records: seq<Record>, records2: seq<Record>, toVersionId: int,
                         step: ExecutionStep, done: seq<DBMigrationScript>)
    requires UniqueFileNames(all)
    requires forall d :: d in done ==> d in Plan(all, records, toVersionId, step)
    requires forall m :: m in StepFilter(all, step) ==>
      (NotJournalled(records2, m.fileName) <==> !JournalledAfter(done, m.fileName, !NotJournalled(records, m.fileName)))
    ensures forall s :: s in Plan(all, records2, toVersionId, step) <==>
      s in Plan(all, records, toVersionId, step) && forall d :: d in done ==> d.name != s.name
  {
    forall s
      ensures s in Plan(all, records2, toVersionId, step) <==>
        s in Plan(all, records, toVersionId, step) && forall d :: d in done ==> d.name != s.name
    {
      ReplanStep(all, records, records2, toVersionId, step, done, s);
    }
  }

  /**
   * A run on the MySQL journal, failed or not, leaves a journal that reads back, and
   * calling `PerformDBMigration` again plans the first plan's steps less those the run
   * completed (compared by file name): a failed run resumes where it stopped.
   */
  lemma RerunResumes(providers: seq<ScriptProvider>, toVersionId: int, step: ExecutionStep,
                     w: World, faults: ExecutorFaults, plan: seq<DBMigrationScript>)
    requires w.journal.TableState?
    requires AllMigrations(providers).Ok? && UniqueFileNames(AllMigrations(providers).value)
    requires PlanInOperation(providers, toVersionId, step, w.journal).0 == Ok(plan)
    ensures var res := PerformDBMigration(providers, toVersionId, step, w, faults).0;
      var w1 := PerformDBMigration(providers, toVersionId, step, w, faults).1;
      var replanned := PlanInOperation(providers, toVersionId, step, w1.journal).0;
      && replanned.Ok?
      && forall s :: s in replanned.value <==> s in plan && forall d :: d in res.scripts ==> d.name != s.name
  {
    var all := AllMigrations(providers).value;
    var t0 := w.journal.table;
    var records := MySqlJournal.ReadRecords(t0).value;
    assert plan == Plan(all, records, toVersionId, step);
    var res := PerformDBMigration(providers, toVersionId, step, w, faults).0;
    var w1 := PerformDBMigration(providers, toVersionId, step, w, faults).1;
    PerformDBMigrationRunsPlanPrefix(providers, toVersionId, step, w, faults, plan);
    assert forall d :: d in res.scripts ==> d in plan;
    PerformDBMigrationNames(providers, toVersionId, step, w, faults, plan, "");
    var t1 := w1.journal.table;
    MySqlJournal.NoNullsRead(t1);
    var records2 := MySqlJournal.ReadRecords(t1).value;
    forall m | m in StepFilter(all, step)
      ensures NotJournalled(records2, m.fileName) <==> !JournalledAfter(res.scripts, m.fileName, !NotJournalled(records, m.fileName))
    {
      PerformDBMigrationNames(providers, toVersionId, step, w, faults, plan, m.fileName);
      MySqlJournal.ReadRecordsNames(t0, m.fileName);
      MySqlJournal.ReadRecordsNames(t1, m.fileName);
    }
    ReplanAfterSteps(all, records, records2, toVersionId, step, res.scripts);
    assert PlanInOperation(providers, toVersionId, step, w1.journal).0 == Ok(Plan(all, records2, toVersionId, step));
  }

  /**
   * Running the migrations again is safe: after a successful run on the MySQL journal, with
   * unique file names, the same call plans nothing, so it reports success without running a
   * script, checking the schema or changing a row.
   */
  lemma RerunPlansNothing(providers: seq<ScriptProvider>, toVersionId: int, step: ExecutionStep,
                          w: World, faults: ExecutorFaults, plan: seq<DBMigrationScript>)
    requires w.journal.TableState?
    requires AllMigrations(providers).Ok? && UniqueFileNames(AllMigrations(providers).value)
    requires PlanInOperation(providers, toVersionId, step, w.journal).0 == Ok(plan)
    requires PerformDBMigration(providers, toVersionId, step, w, faults).0.successful
    ensures var w1 := PerformDBMigration(providers, toVersionId, step, w, faults).1;
      var res2 := PerformDBMigration(providers, toVersionId, step, w1, faults).0;
      var w2 := PerformDBMigration(providers, toVersionId, step, w1, faults).1;
      && PlanInOperation(providers, toVersionId, step, w1.journal).0 == Ok([])
      && res2 == UpgradeResult([], true, None)
      && Rows(w2.journal) == Rows(w1.journal) && w2.calls == w1.calls && w2.verifications == w1.verifications
  {
    var w1 := PerformDBMigration(providers, toVersionId, step, w, faults).1;
    RerunResumes(providers, toVersionId, step, w, faults, plan);
    PerformDBMigrationRunsPlanPrefix(providers, toVersionId, step, w, faults, plan);
    var plan2 := PlanInOperation(providers, toVersionId, step, w1.journal).0.value;
    NothingInIsEmpty(plan2);
    PerformDBMigrationExecutesPlan(providers, toVersionId, step, w1, faults, []);
  }

  /** A sequence without members is empty. */
  lemma NothingInIsEmpty<T>(s: seq<T>)
    requires forall x :: x !in s
    ensures s == []
  {
    forall x
      ensures multiset(s)[x] == 0
    {
      assert x !in s;
    }
    assert multiset(s) == multiset{};
  }

  // ---- the legacy script path ----

  /**
   * The script walk completes a prefix of the pending list, all of it exactly when it
   * succeeds; the executor ran the completed scripts in order and at most the one it
   * stopped at; the schema check is never repeated.
   */
  lemma RunScriptsPrefix(scripts: seq<SqlScript>, w: World, faults: ExecutorFaults)
    ensures var r := RunScripts(scripts, w, faults);
      |r.done| <= |scripts| && r.done == scripts[..|r.done|]
      && (r.error.None? <==> r.done == scripts)
      && r.world.verifications == w.verifications
      && (r.world.calls == w.calls + r.done
          || (|r.done| < |scripts| && r.world.calls == w.calls + r.done + [scripts[|r.done|]]))
      && (r.error.None? ==> r.world.calls == w.calls + r.done)
  {
    RunScriptsDone(scripts, w, faults);
    RunScriptsCalls(scripts, w, faults);
  }

  /** The completed scripts are a prefix of the list, all of it exactly when nothing failed. */
  lemma {:induction false} RunScriptsDone(scripts: seq<SqlScript>, w: World, faults: ExecutorFaults)
    ensures var r := RunScripts(scripts, w, faults);
      |r.done| <= |scripts| && r.done == scripts[..|r.done|]
      && (r.error.None? <==> r.done == scripts)
  {
    if scripts != [] {
      match ScriptStep(scripts[0], w, faults)
      case Stopped(e, w1) =>
      case Completed(w1) =>
        RunScriptsDone(scripts[1..], w1, faults);
        var r := RunScripts(scripts[1..], w1, faults);
        assert scripts == [scripts[0]] + scripts[1..];
        assert ([scripts[0]] + r.done == scripts) <==> (r.done == scripts[1..]);
    }
  }

  /** The executor ran the completed scripts in order, and at most the one the walk stopped at. */
  lemma {:induction false} RunScriptsCalls(scripts: seq<SqlScript>, w: World, faults: ExecutorFaults)
    ensures var r := RunScripts(scripts, w, faults);
      r.world.verifications == w.verifications
      && (r.world.calls == w.calls + r.done
          || (|r.done| < |scripts| && r.world.calls == w.calls + r.done + [scripts[|r.done|]]))
  {
    if scripts == [] {
      assert w.calls + [] == w.calls;
    } else {
      match ScriptStep(scripts[0], w, faults)
      case Stopped(e, w1) =>
        assert w.calls + [] == w.calls;
      case Completed(w1) =>
        RunScriptsCalls(scripts[1..], w1, faults);
        RunScriptsDone(scripts[1..], w1, faults);
        var r := RunScripts(scripts[1..], w1, faults);
        ScriptCallsCons(w.calls, scripts, r.done, r.world.calls);
    }
  }

  /** The bookkeeping of one completed script in front of the rest of the walk. */
  lemma ScriptCallsCons(calls: seq<SqlScript>, scripts: seq<SqlScript>, done: seq<SqlScript>, after: seq<SqlScript>)
    requires scripts != [] && |done| <= |scripts| - 1
    requires after == calls + [scripts[0]] + done
          || (|done| < |scripts| - 1 && after == calls + [scripts[0]] + done + [scripts[1..][|done|]])
    ensures after == calls + ([scripts[0]] + done)
         || (|done| + 1 < |scripts| && after == calls + ([scripts[0]] + done) + [scripts[|done| + 1]])
  {
    var head := calls + [scripts[0]] + done;
    assert head == calls + ([scripts[0]] + done);
    if |done| < |scripts| - 1 {
      assert scripts[1..][|done|] == scripts[|done| + 1];
    }
  }

  /** A name-only row per script: what the legacy path writes into the MySQL table. */
  predicate NameOnlyRows(rows: seq<MySqlJournal.Row>, scripts: seq<SqlScript>) {
    |rows| == |scripts|
    && forall k :: 0 <= k < |rows| ==> rows[k].versionId.None? && rows[k].migrationType.None? && rows[k].scriptName == scripts[k].name
  }

  /** On the MySQL table every completed script adds one row that carries only its name. */
  lemma {:induction false} RunScriptsAppendsNameOnlyRows(scripts: seq<SqlScript>, w: World, faults: ExecutorFaults)
    requires w.journal.TableState?
    ensures var r := RunScripts(scripts, w, faults);
      r.world.journal.TableState?
      && |Rows(w.journal)| <= |Rows(r.world.journal)|
      && Rows(r.world.journal)[..|Rows(w.journal)|] == Rows(w.journal)
      && NameOnlyRows(Rows(r.world.journal)[|Rows(w.journal)|..], r.done)
  {
    var old_ := Rows(w.journal);
    if scripts == [] {
      assert old_[|old_|..] == [];
    } else {
      match ScriptStep(scripts[0], w, faults)
      case Stopped(e, w1) =>
        assert Rows(w1.journal) == old_;
        assert old_[|old_|..] == [];
      case Completed(w1) =>
        var t := w.journal.table;
        var row := MySqlJournal.Row(t.nextId, None, None, scripts[0].name);
        assert Rows(w1.journal) == old_ + [row];
        RunScriptsAppendsNameOnlyRows(scripts[1..], w1, faults);
        var r := RunScripts(scripts[1..], w1, faults);
        NameOnlyCons(old_, row, Rows(r.world.journal), scripts[0], r.done);
    }
  }

  /** One more name-only row in front of the rows the rest of the walk appended. */
  lemma NameOnlyCons(old_: seq<MySqlJournal.Row>, row: MySqlJournal.Row, rows: seq<MySqlJournal.Row>, s: SqlScript, done: seq<SqlScript>)
    requires row.versionId.None? && row.migrationType.None? && row.scriptName == s.name
    requires |old_| + 1 <= |rows| && rows[..|old_ + [row]|] == old_ + [row]
    requires NameOnlyRows(rows[|old_ + [row]|..], done)
    ensures |old_| <= |rows| && rows[..|old_|] == old_
    ensures NameOnlyRows(rows[|old_|..], [s] + done)
  {
    assert rows[..|old_|] == (old_ + [row])[..|old_|] == old_;
    assert rows[|old_|..] == [row] + rows[|old_| + 1..];
    assert rows[|old_|] == row;
  }

  /**
   * A successful `PerformUpgrade` on the MySQL table leaves rows without a version, which
   * the versioned reader cannot parse: every later read of the journal throws.
   */
  lemma ScriptRowsBreakVersionedReads(scripts: seq<SqlScript>, w: World, faults: ExecutorFaults)
    requires w.journal.TableState?
    requires RunScripts(scripts, w, faults).done != []
    ensures Read(RunScripts(scripts, w, faults).world.journal) == Err(JournalReadFailed)
  {
    RunScriptsAppendsNameOnlyRows(scripts, w, faults);
    var r := RunScripts(scripts, w, faults);
    var t := r.world.journal.table;
    var n := |Rows(w.journal)|;
    assert t.rows[n..][0] == t.rows[n];
    assert MySqlJournal.HasNullColumn(t.rows[n]);
    MySqlJournal.ReadFailsOnNull(t);
  }

  /**
   * `PerformUpgrade` runs a prefix of its pending list: all of it exactly when it reports
   * success, and then the executor ran exactly the pending scripts; nothing pending is a
   * success that runs nothing and skips the schema check.
   */
  lemma PerformUpgradeRunsPending(providers: seq<ScriptProvider>, w: World, faults: ExecutorFaults, pending: seq<SqlScript>)
    requires PendingInOperation(providers, w.journal).0 == Ok(pending)
    ensures var res := PerformUpgrade(providers, w, faults).0;
      var w' := PerformUpgrade(providers, w, faults).1;
      |res.scripts| <= |pending| && res.scripts == pending[..|res.scripts|]
      && (res.successful <==> res.error.None?)
      && (res.successful <==> res.scripts == pending)
      && (res.successful ==> w'.calls == w.calls + pending)
      && (pending == [] ==> res == UpgradeResult([], true, None) && w' == w.(journal := Touched(w.journal)))
      && (pending != [] ==> w'.verifications == w.verifications + 1)
  {
    var w1 := w.(journal := Touched(w.journal));
    assert PerformUpgrade(providers, w, faults) == ExecuteScripts(pending, w1, faults);
    if pending != [] {
      var w2 := w1.(verifications := w1.verifications + 1);
      if !faults.schemaInvalid {
        RunScriptsPrefix(pending, w2, faults);
      }
    }
  }

  /** A script provider fails exactly when it is a migration directory, and always with `NotImplemented`. */
  lemma {:induction false} ScriptsFailOnlyForDirectories(providers: seq<ScriptProvider>)
    ensures AllScripts(providers).Err? <==> exists k :: 0 <= k < |providers| && providers[k].Directory?
    ensures AllScripts(providers).Err? ==> AllScripts(providers).error == NotImplemented
  {
    if providers != [] {
      ScriptsFailOnlyForDirectories(providers[1..]);
      if providers[0].Static? {
        assert forall k :: 1 <= k < |providers| ==> providers[k] == providers[1..][k - 1];
      }
    }
  }

  /**
   * A migration directory cannot supply plain scripts, so with one among the providers
   * the legacy entry points fail before running or journalling anything.
   */
  lemma DirectoryProviderFailsScripts(providers: seq<ScriptProvider>, w: World, faults: ExecutorFaults, latest: Option<string>, k: nat)
    requires k < |providers| && providers[k].Directory?
    ensures var (res, w') := PerformUpgrade(providers, w, faults);
      !res.successful && res.scripts == [] && w' == w.(journal := Touched(w.journal))
    ensures var (res, w') := MarkAsExecuted(providers, latest, w);
      !res.successful && res.scripts == [] && w' == w.(journal := Touched(w.journal))
    ensures UpgradeRun.IsUpgradeRequired(providers, w.journal).0.Err?
  {
    ScriptsFailOnlyForDirectories(providers);
  }

  /** `IsUpgradeRequired` answers yes exactly when something is pending, and no exactly when nothing is. */
  lemma UpgradeRequiredIffPending(providers: seq<ScriptProvider>, j: JournalState)
    ensures UpgradeRun.IsUpgradeRequired(providers, j).0 == Ok(true)
        <==> PendingInOperation(providers, j).0.Ok? && PendingInOperation(providers, j).0.value != []
    ensures UpgradeRun.IsUpgradeRequired(providers, j).0 == Ok(false) <==> PendingInOperation(providers, j).0 == Ok([])
    ensures UpgradeRun.IsUpgradeRequired(providers, j).1 == Touched(j)
  {
  }

  /** When no upgrade is required, `PerformUpgrade` succeeds without running anything. */
  lemma NotRequiredRunsNothing(providers: seq<ScriptProvider>, w: World, faults: ExecutorFaults)
    requires UpgradeRun.IsUpgradeRequired(providers, w.journal).0 == Ok(false)
    ensures PerformUpgrade(providers, w, faults) == (UpgradeResult([], true, None), w.(journal := Touched(w.journal)))
  {
    UpgradeRequiredIffPending(providers, w.journal);
  }

  /**
   * What marking may journal: a prefix of the pending list; on an exception, a proper
   * prefix holding no script named `latest`; otherwise one that ends at the first script
   * named `latest`, or the whole list when no script has that name.
   */
  predicate MarkedPrefix(scripts: seq<SqlScript>, latest: Option<string>, done: seq<SqlScript>, stopped: bool) {
    |done| <= |scripts| && done == scripts[..|done|]
    && (stopped ==> |done| < |scripts| && forall k :: 0 <= k < |done| ==> latest != Some(scripts[k].name))
    && (!stopped ==> forall k :: 0 <= k < |done| - 1 ==> latest != Some(scripts[k].name))
    && (!stopped ==> done == scripts || (done != [] && latest == Some(done[|done| - 1].name)))
  }

  /** Marking journals without executing: no executor call and no schema check. */
  lemma {:induction false} MarkScriptsPrefix(scripts: seq<SqlScript>, latest: Option<string>, w: World)
    ensures var r := MarkScripts(scripts, latest, w);
      r.world.calls == w.calls && r.world.verifications == w.verifications
      && MarkedPrefix(scripts, latest, r.done, r.error.Some?)
  {
    if scripts != [] {
      var stored := StoreScript(w.journal, scripts[0]);
      var w1 := w.(journal := stored.1);
      if stored.0.Pass? && latest != Some(scripts[0].name) {
        MarkScriptsPrefix(scripts[1..], latest, w1);
        var r := MarkScripts(scripts[1..], latest, w1);
        assert MarkScripts(scripts, latest, w) == Prepend(scripts[0], r);
        MarkedPrefixStep(scripts, latest, r.done, r.error.Some?);
      } else {
        assert scripts[..1] == [scripts[0]];
      }
    }
  }

  /** A script marked ahead of the rest, when its name is not `latest`. */
  lemma MarkedPrefixStep(scripts: seq<SqlScript>, latest: Option<string>, done: seq<SqlScript>, stopped: bool)
    requires scripts != [] && latest != Some(scripts[0].name)
    requires MarkedPrefix(scripts[1..], latest, done, stopped)
    ensures MarkedPrefix(scripts, latest, [scripts[0]] + done, stopped)
  {
    var all := [scripts[0]] + done;
    assert scripts == [scripts[0]] + scripts[1..];
    assert all == scripts[..|all|];
    assert forall k :: 1 <= k < |all| ==> scripts[k] == scripts[1..][k - 1];
    if done != [] {
      assert all[|all| - 1] == done[|done| - 1];
    }
  }

  /** On the MySQL table marking appends one name-only row per marked script, in order, and nothing else. */
  lemma {:induction false} MarkScriptsAppendsNameOnlyRows(scripts: seq<SqlScript>, latest: Option<string>, w: World)
    requires w.journal.TableState?
    ensures var r := MarkScripts(scripts, latest, w);
      r.world.journal.TableState?
      && |Rows(w.journal)| <= |Rows(r.world.journal)|
      && Rows(r.world.journal)[..|Rows(w.journal)|] == Rows(w.journal)
      && NameOnlyRows(Rows(r.world.journal)[|Rows(w.journal)|..], r.done)
  {
    var old_ := Rows(w.journal);
    if scripts == [] {
      assert old_[|old_|..] == [];
    } else {
      var stored := StoreScript(w.journal, scripts[0]);
      var w1 := w.(journal := stored.1);
      if stored.0.Fail? {
        assert Rows(w1.journal) == old_;
        assert old_[|old_|..] == [];
      } else {
        var t := w.journal.table;
        var row := MySqlJournal.Row(t.nextId, None, None, scripts[0].name);
        assert Rows(w1.journal) == old_ + [row];
        if latest == Some(scripts[0].name) {
          assert (old_ + [row])[|old_ + [row]|..] == [];
          NameOnlyCons(old_, row, old_ + [row], scripts[0], []);
          assert [scripts[0]] + [] == [scripts[0]];
        } else {
          MarkScriptsAppendsNameOnlyRows(scripts[1..], latest, w1);
          var r := MarkScripts(scripts[1..], latest, w1);
          assert MarkScripts(scripts, latest, w) == Prepend(scripts[0], r);
          NameOnlyCons(old_, row, Rows(r.world.journal), scripts[0], r.done);
        }
      }
    }
  }

  /** Under the null journal marking cannot fail and the journal stays empty. */
  lemma {:induction false} MarkScriptsNullJournal(scripts: seq<SqlScript>, latest: Option<string>, w: World)
    requires w.journal.NullState?
    ensures var r := MarkScripts(scripts, latest, w);
      r.world.journal == NullState && r.error.None?
  {
    if scripts != [] && latest != Some(scripts[0].name) {
      MarkScriptsNullJournal(scripts[1..], latest, w);
    }
  }

  /**
   * `MarkAsExecuted` never asks the executor for anything. It marks the pending scripts in
   * order, up to and including the first one named `latest`. On the MySQL table the marked
   * scripts become name-only rows after the existing ones; under the null journal nothing
   * is kept and nothing fails.
   */
  lemma MarkAsExecutedRunsNothing(providers: seq<ScriptProvider>, latest: Option<string>, w: World, pending: seq<SqlScript>)
    requires PendingInOperation(providers, w.journal).0 == Ok(pending)
    ensures var (res, w') := MarkAsExecuted(providers, latest, w);
      w'.calls == w.calls && w'.verifications == w.verifications
      && MarkedPrefix(pending, latest, res.scripts, !res.successful)
      && (w.journal.TableState? ==>
            && w'.journal.TableState?
            && |Rows(w.journal)| <= |Rows(w'.journal)|
            && Rows(w'.journal)[..|Rows(w.journal)|] == Rows(w.journal)
            && NameOnlyRows(Rows(w'.journal)[|Rows(w.journal)|..], res.scripts))
      && (w.journal.NullState? ==> w'.journal == NullState && res.successful)
  {
    var w1 := w.(journal := Touched(w.journal));
    MarkScriptsPrefix(pending, latest, w1);
    if w.journal.TableState? {
      MarkScriptsAppendsNameOnlyRows(pending, latest, w1);
    } else {
      MarkScriptsNullJournal(pending, latest, w1);
    }
  }

  // ---- the null journal ----

  /** The null journal has nothing journalled: every script is pending, and the journal stays empty. */
  lemma NullJournalPendsEverything(providers: seq<ScriptProvider>)
    requires AllScripts(providers).Ok?
    ensures PendingInOperation(providers, NullState) == (Ok(AllScripts(providers).value), NullState)
  {
    NothingJournalledKeepsAll(AllScripts(providers).value, []);
  }

  /** Without executor faults, the script walk on the null journal runs every script. */
  lemma {:induction false} NullJournalRunsAll(scripts: seq<SqlScript>, w: World, faults: ExecutorFaults)
    requires w.journal.NullState?
    requires forall k :: 0 <= k < |scripts| ==> scripts[k].name !in faults.failing
    ensures RunScripts(scripts, w, faults) == Walk(scripts, None, w.(calls := w.calls + scripts))
  {
    if scripts == [] {
      assert w.calls + [] == w.calls;
    } else {
      var w1 := w.(calls := w.calls + [scripts[0]]);
      assert StoreScript(NullState, scripts[0]) == (Pass, NullState);
      assert ScriptStep(scripts[0], w, faults) == Completed(w1);
      assert RunScripts(scripts, w, faults) == Prepend(scripts[0], RunScripts(scripts[1..], w1, faults));
      assert forall k :: 0 <= k < |scripts[1..]| ==> scripts[1..][k] == scripts[k + 1];
      NullJournalRunsAll(scripts[1..], w1, faults);
      AppendOneThenRest(w.calls, scripts);
    }
  }

  lemma AppendOneThenRest<T>(prefix: seq<T>, s: seq<T>)
    requires s != []
    ensures (prefix + [s[0]]) + s[1..] == prefix + s
  {
    assert [s[0]] + s[1..] == s;
  }

  /**
   * The null journal forgets what ran: two `PerformUpgrade` calls in a row both run the
   * whole script list.
   */
  lemma NullJournalRerunsEverything(providers: seq<ScriptProvider>, w: World, faults: ExecutorFaults, scripts: seq<SqlScript>)
    requires w.journal.NullState? && AllScripts(providers) == Ok(scripts)
    requires !faults.schemaInvalid && forall k :: 0 <= k < |scripts| ==> scripts[k].name !in faults.failing
    ensures var (r1, w1) := PerformUpgrade(providers, w, faults);
      var (r2, w2) := PerformUpgrade(providers, w1, faults);
      r1 == UpgradeResult(scripts, true, None) && r2 == r1
      && w1.journal == NullState && w2.calls == w.calls + scripts + scripts
  {
    NullJournalPendsEverything(providers);
    var (r1, w1) := PerformUpgrade(providers, w, faults);
    if scripts == [] {
      assert w.calls + [] + [] == w.calls;
    } else {
      NullJournalRunsAll(scripts, w.(verifications := w.verifications + 1), faults);
      assert w1.journal == NullState && w1.calls == w.calls + scripts;
      NullJournalRunsAll(scripts, w1.(verifications := w1.verifications + 1), faults);
    }
  }
}
