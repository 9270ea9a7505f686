/**
 * The value types the engine works on: the deployment step, the migration kind and
 * direction, the migration descriptor a provider supplies, the plain script, the
 * journal record, the exceptions and the upgrade result.
 */
module Migrations {
  import opened Wrappers

  /** `ExecutionSteps`: the deployment phase a migration asks to run in. */
  datatype ExecutionStep = NoPreference | BeforeCode | AfterCode

  /** `MigrationTypes`. */
  datatype MigrationType = Schema | Data

  /** `MigrationPerformTypes`: apply (Up) or roll back (Down). */
  datatype PerformType = Up | Down

  /**
   * What distinguishes the two subclasses of `DBMigration`: a `SchemaMigration` carries
   * its rollback text, a `DataMigration` the schema version it depends on.
   */
  datatype MigrationKind =
    | SchemaMigration(downScript: string)
    | DataMigration(dependentSchemaVersionId: int)

  /**
   * A migration descriptor (`DBMigration` and its subclasses): the version and file name
   * the provider assigns, the Up text, the step it should run at and its kind.
   */
  datatype Migration = Migration(
    versionId: int,
    fileName: string,
    upScript: string,
    shouldRunAt: ExecutionStep,
    kind: MigrationKind)

  /** `SqlScript`: a named script text. */
  datatype SqlScript = SqlScript(name: string, contents: string)

  /** A journal record as read back (`Entities.DBMigration`, without its timestamp). */
  datatype Record = Record(id: int, versionId: int, migrationType: MigrationType, scriptName: string)

  /** The exceptions the core raises or meets. */
  datatype Error =
    | NotImplemented                                       // NotImplementedException
    | DependencyMissing(dependentVersion: int, migration: string)
    | SchemaInvalid                                        // VerifySchema failed
    | ExecutionFailed(script: string)                      // the executor threw
    | JournalWriteFailed(script: string)                   // the journal's insert or delete threw
    | JournalReadFailed                                    // a row could not be read back
    | InstantiationFailed(file: string)                    // compiling or instantiating a migration failed

  /** An exception together with the script name the engine attached to it, if any. */
  datatype UpgradeError = UpgradeError(cause: Error, script: Option<string>)

  /** `DatabaseUpgradeResult`: what was executed (or marked), whether it succeeded, and why not. */
  datatype UpgradeResult<T> = UpgradeResult(scripts: seq<T>, successful: bool, error: Option<UpgradeError>)

  /** True iff no record in `records` carries `name` as its script name. */
  predicate NotJournalled(records: seq<Record>, name: string) {
    forall k :: 0 <= k < |records| ==> records[k].scriptName != name
  }
}
