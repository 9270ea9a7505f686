/**
 * `IScriptProvider`: the engine's configured providers, each either a
 * `StaticScriptProvider` or a `DBMigrationScriptProvider`, and the two interface calls
 * dispatched on the kind.
 */
module ScriptProviders {
  import opened Wrappers
  import opened Migrations
  import StaticScriptProvider
  import DBMigrationScriptProvider

  datatype ScriptProvider =
    | Static(fixed: StaticScriptProvider.Provider)
    | Directory(directory: DBMigrationScriptProvider.Provider)

  /** `GetScripts`: only the static provider serves plain scripts. */
  function GetScripts(p: ScriptProvider): (r: Result<seq<SqlScript>, Error>)
    ensures r.Err? <==> p.Directory?
    ensures p.Static? ==> r == Ok(p.fixed.scripts)
  {
    match p
    case Static(s) => StaticScriptProvider.GetScripts(s)
    case Directory(d) => DBMigrationScriptProvider.GetScripts(d)
  }

  /** `GetDBMigrations`: only the directory provider serves versioned migrations. */
  function GetDBMigrations(p: ScriptProvider): (r: Result<seq<Migration>, Error>)
    ensures p.Static? ==> r == Err(NotImplemented)
    ensures p.Directory? ==> r == DBMigrationScriptProvider.CollectMigrations(p.directory.files, p.directory.prefixLength, p.directory.compile)
  {
    match p
    case Static(s) => StaticScriptProvider.GetDBMigrations(s)
    case Directory(d) => DBMigrationScriptProvider.GetDBMigrations(d)
  }
}
