/**
 * `NullJournal`: a journal that keeps nothing, so that idempotent scripts run on
 * every upgrade. It has no state; its writes do nothing and its existence query throws.
 */
module NullJournal {
  import opened Wrappers
  import opened Migrations
  import opened MigrationScripts

  /** Always a fresh empty list: nothing is ever recorded. */
  function GetMigratedDBVersions(): (r: seq<Record>)
    ensures |r| == 0
  {
    []
  }

  /** Returns without storing anything and without failing. */
  function StoreExecutedScript(script: SqlScript): (r: Outcome<Error>)
    ensures r.Pass?
  {
    Pass
  }

  /** Returns without storing anything and without failing. */
  function StoreExecutedMigrationScript(migrationScript: DBMigrationScript): (r: Outcome<Error>)
    ensures r.Pass?
  {
    Pass
  }

  /** Throws `NotImplementedException` whatever it is asked. */
  function HasDBVersionMigrated(versionId: int, migrationType: MigrationType): (r: Result<bool, Error>)
    ensures r == Err(NotImplemented)
  {
    Err(NotImplemented)
  }
}
