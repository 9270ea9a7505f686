/** `StaticScriptProvider`: a fixed list of scripts supplied from code. */
module StaticScriptProvider {
  import opened Wrappers
  import opened Migrations

  /** The readonly list given to the constructor. */
  datatype Provider = Provider(scripts: seq<SqlScript>)

  /** `GetScripts` hands back the constructor's list, unchanged and in order. */
  function GetScripts(p: Provider): (r: Result<seq<SqlScript>, Error>)
    ensures r.Ok? && r.value == p.scripts
  {
    Ok(p.scripts)
  }

  /**
   * `GetDBMigrations` is not implemented; the public member and the explicit
   * `IScriptProvider` implementation both throw.
   */
  function GetDBMigrations(p: Provider): (r: Result<seq<Migration>, Error>)
    ensures r == Err(NotImplemented)
  {
    Err(NotImplemented)
  }
}
