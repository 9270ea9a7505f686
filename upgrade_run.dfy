/**
 * What the engine's runs do, as functions of the world before them: the journal
 * state and the executor's log. Each `UpgradeEngine` method is proved to do exactly
 * what the function of the same name here says; the lemmas state what the runs promise.
 */
module UpgradeRun {
  import opened Wrappers
  import opened Migrations
  import opened MigrationScripts
  import opened Journals
  import opened Executors
  import opened ScriptProviders
  import opened UpgradePlanner
  import MySqlJournal

  /** What the engine observes and changes: the journal, and what the executor was asked to do. */
  datatype World = World(journal: JournalState, calls: seq<SqlScript>, verifications: nat)

  /** The end of one loop iteration: the step completed, or it ended the run with an exception. */
  datatype StepResult = Completed(world: World) | Stopped(error: UpgradeError, world: World)

  /** A walk over a list: the items completed, the exception that ended it, the world after. */
  datatype Walk<T> = Walk(done: seq<T>, error: Option<UpgradeError>, world: World)

  function Prepend<T>(x: T, r: Walk<T>): Walk<T> {
    r.(done := [x] + r.done)
  }

  function PrependAll<T>(prefix: seq<T>, r: Walk<T>): Walk<T> {
    r.(done := prefix + r.done)
  }

  lemma PrependAllSnoc<T>(prefix: seq<T>, x: T, r: Walk<T>)
    ensures PrependAll(prefix, Prepend(x, r)) == PrependAll(prefix + [x], r)
  {
    assert prefix + ([x] + r.done) == (prefix + [x]) + r.done;
  }

  lemma PrependAllNothing<T>(r: Walk<T>)
    ensures PrependAll([], r) == r
  {
    assert [] + r.done == r.done;
  }

  /** A walk as an upgrade result: success iff no exception ended it. */
  function Outcome<T>(r: Walk<T>): UpgradeResult<T> {
    UpgradeResult(r.done, r.error.None?, r.error)
  }

  /** The failed result the catch block returns for an exception raised before any step. */
  function Failed<T>(e: Error): UpgradeResult<T> {
    UpgradeResult([], false, Some(UpgradeError(e, None)))
  }

  // ---- the versioned migration run ----

  /** `GetDBMigrationsToExecuteInsideOperation`: the providers are enumerated first, then the journal is read. */
  function PlanInOperation(providers: seq<ScriptProvider>, toVersionId: int, step: ExecutionStep, j: JournalState)
    : (Result<seq<DBMigrationScript>, Error>, JournalState)
  {
    match AllMigrations(providers)
    case Err(e) => (Err(e), j)
    case Ok(all) =>
      match Read(j)
      case Err(e) => (Err(e), Touched(j))
      case Ok(records) => (Ok(Plan(all, records, toVersionId, step)), Touched(j))
  }

  /** The script a step runs: its Up text or its Down text, under the step's name. */
  function StepScript(m: DBMigrationScript): (s: SqlScript)
    ensures s.name == m.name
  {
    if m.performType == Up then SqlScript(m.name, m.upScript) else SqlScript(m.name, m.downScript)
  }

  function StepScripts(ms: seq<DBMigrationScript>): (r: seq<SqlScript>)
    ensures |r| == |ms| && forall k :: 0 <= k < |ms| ==> r[k] == StepScript(ms[k])
  {
    if ms == [] then [] else [StepScript(ms[0])] + StepScripts(ms[1..])
  }

  /** Execute, then journal; an exception from either carries the step's name. */
  function ExecuteAndStore(m: DBMigrationScript, w: World, faults: ExecutorFaults): StepResult {
    var script := StepScript(m);
    var w1 := w.(calls := w.calls + [script]);
    match ExecuteResult(faults, script)
    case Fail(e) => Stopped(UpgradeError(e, Some(m.name)), w1)
    case Pass =>
      var stored := StoreMigration(w1.journal, m);
      var w2 := w1.(journal := stored.1);
      match stored.0
      case Fail(e) => Stopped(UpgradeError(e, Some(m.name)), w2)
      case Pass => Completed(w2)
  }

  /**
   * One iteration of the `PerformDBMigration` loop. A step with a dependency first asks the
   * journal whether that schema version is recorded; a "no" is returned directly, without the
   * step's name attached, while an exception from the query goes through the catch block.
   */
  function MigrationStep(m: DBMigrationScript, w: World, faults: ExecutorFaults): StepResult {
    match m.dependentSchemaVersionId
    case None => ExecuteAndStore(m, w, faults)
    case Some(dep) =>
      var asked := HasMigrated(w.journal, dep, Schema);
      var w1 := w.(journal := asked.1);
      match asked.0
      case Err(e) => Stopped(UpgradeError(e, Some(m.name)), w1)
      case Ok(found) =>
        if found then ExecuteAndStore(m, w1, faults)
        else Stopped(UpgradeError(DependencyMissing(dep, m.name), None), w1)
  }

  /** The `foreach` over the plan: stops at the first step that does not complete. */
  function RunMigrations(steps: seq<DBMigrationScript>, w: World, faults: ExecutorFaults): Walk<DBMigrationScript>
  {
    if steps == [] then Walk([], None, w)
    else
      match MigrationStep(steps[0], w, faults)
      case Stopped(e, w1) => Walk([], Some(e), w1)
      case Completed(w1) => Prepend(steps[0], RunMigrations(steps[1..], w1, faults))
  }

  /** `PerformDBMigration(toVersionId, executionStep)`. */
  function PerformDBMigration(providers: seq<ScriptProvider>, toVersionId: int, step: ExecutionStep, w: World, faults: ExecutorFaults)
    : (UpgradeResult<DBMigrationScript>, World)
  {
    var planned := PlanInOperation(providers, toVersionId, step, w.journal);
    var w1 := w.(journal := planned.1);
    match planned.0
    case Err(e) => (Failed(e), w1)
    case Ok(plan) => ExecutePlan(plan, w1, faults)
  }

  /** The rest of `PerformDBMigration` once the plan is known: nothing to do, or verify the schema and walk the plan. */
  function ExecutePlan(plan: seq<DBMigrationScript>, w: World, faults: ExecutorFaults): (UpgradeResult<DBMigrationScript>, World)
  {
    if plan == [] then (UpgradeResult([], true, None), w)
    else
      var w1 := w.(verifications := w.verifications + 1);
      match VerifyResult(faults)
      case Fail(e) => (Failed(e), w1)
      case Pass =>
        var r := RunMigrations(plan, w1, faults);
        (Outcome(r), r.world)
  }

  // ---- the legacy script run ----

  /** `GetScriptsToExecuteInsideOperation`: the journal is read first, then the providers are enumerated. */
  function PendingInOperation(providers: seq<ScriptProvider>, j: JournalState): (Result<seq<SqlScript>, Error>, JournalState)
  {
    match Read(j)
    case Err(e) => (Err(e), Touched(j))
    case Ok(records) =>
      match AllScripts(providers)
      case Err(e) => (Err(e), Touched(j))
      case Ok(scripts) => (Ok(PendingScripts(scripts, records)), Touched(j))
  }

  /** One iteration of the `PerformUpgrade` loop. */
  function ScriptStep(s: SqlScript, w: World, faults: ExecutorFaults): StepResult {
    var w1 := w.(calls := w.calls + [s]);
    match ExecuteResult(faults, s)
    case Fail(e) => Stopped(UpgradeError(e, Some(s.name)), w1)
    case Pass =>
      var stored := StoreScript(w1.journal, s);
      var w2 := w1.(journal := stored.1);
      match stored.0
      case Fail(e) => Stopped(UpgradeError(e, Some(s.name)), w2)
      case Pass => Completed(w2)
  }

  function RunScripts(scripts: seq<SqlScript>, w: World, faults: ExecutorFaults): Walk<SqlScript>
  {
    if scripts == [] then Walk([], None, w)
    else
      match ScriptStep(scripts[0], w, faults)
      case Stopped(e, w1) => Walk([], Some(e), w1)
      case Completed(w1) => Prepend(scripts[0], RunScripts(scripts[1..], w1, faults))
  }

  /** `PerformUpgrade()`. */
  function PerformUpgrade(providers: seq<ScriptProvider>, w: World, faults: ExecutorFaults): (UpgradeResult<SqlScript>, World)
  {
    var pending := PendingInOperation(providers, w.journal);
    var w1 := w.(journal := pending.1);
    match pending.0
    case Err(e) => (Failed(e), w1)
    case Ok(scripts) => ExecuteScripts(scripts, w1, faults)
  }

  /** The rest of `PerformUpgrade` once the pending list is known. */
  function ExecuteScripts(scripts: seq<SqlScript>, w: World, faults: ExecutorFaults): (UpgradeResult<SqlScript>, World)
  {
    if scripts == [] then (UpgradeResult([], true, None), w)
    else
      var w1 := w.(verifications := w.verifications + 1);
      match VerifyResult(faults)
      case Fail(e) => (Failed(e), w1)
      case Pass =>
        var r := RunScripts(scripts, w1, faults);
        (Outcome(r), r.world)
  }

  /** `IsUpgradeRequired()`: no catch block, so an exception reaches the caller. */
  function IsUpgradeRequired(providers: seq<ScriptProvider>, j: JournalState): (Result<bool, Error>, JournalState)
  {
    var pending := PendingInOperation(providers, j);
    match pending.0
    case Err(e) => (Err(e), pending.1)
    case Ok(scripts) => (Ok(|scripts| != 0), pending.1)
  }

  /**
   * The marking loop: journal each script without executing it, ending after the first
   * one named `latest` (`None` for the overload without a name). Its catch block attaches
   * no script name.
   */
  function MarkScripts(scripts: seq<SqlScript>, latest: Option<string>, w: World): Walk<SqlScript>
  {
    if scripts == [] then Walk([], None, w)
    else
      var stored := StoreScript(w.journal, scripts[0]);
      var w1 := w.(journal := stored.1);
      match stored.0
      case Fail(e) => Walk([], Some(UpgradeError(e, None)), w1)
      case Pass =>
        if latest == Some(scripts[0].name) then Walk([scripts[0]], None, w1)
        else Prepend(scripts[0], MarkScripts(scripts[1..], latest, w1))
  }

  /** `MarkAsExecuted()` (latest = `None`) and `MarkAsExecuted(latestScript)`. */
  function MarkAsExecuted(providers: seq<ScriptProvider>, latest: Option<string>, w: World): (UpgradeResult<SqlScript>, World)
  {
    var pending := PendingInOperation(providers, w.journal);
    var w1 := w.(journal := pending.1);
    match pending.0
    case Err(e) => (Failed(e), w1)
    case Ok(scripts) =>
      var r := MarkScripts(scripts, latest, w1);
      (Outcome(r), r.world)
  }
}
