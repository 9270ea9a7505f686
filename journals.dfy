/**
 * `IJournal` and its two implementations. The interface becomes a tagged datatype: a
 * journal is either a `MySqlITableJournal` object or the stateless `NullJournal`. Each
 * operation is specified by a function on the journal's abstract state and implemented
 * by a method that dispatches on the tag.
 */
module Journals {
  import opened Wrappers
  import opened Migrations
  import opened MigrationScripts
  import MySqlJournal
  import NullJournal

  /** What a journal holds: the MySQL table, or nothing. */
  datatype JournalState = TableState(table: MySqlJournal.Table) | NullState

  ghost predicate WellFormed(s: JournalState) {
    s.TableState? ==> MySqlJournal.WellFormed(s.table)
  }

  /** The journal rows (the null journal has none). */
  function Rows(s: JournalState): seq<MySqlJournal.Row> {
    match s
    case TableState(t) => t.rows
    case NullState => []
  }

  /** Every MySQL operation first creates a missing table; the null journal is unaffected. */
  function Touched(s: JournalState): (r: JournalState)
    ensures Rows(r) == Rows(s) && r.TableState? == s.TableState?
    ensures WellFormed(s) ==> WellFormed(r)
  {
    match s
    case TableState(t) => TableState(MySqlJournal.Created(t))
    case NullState => NullState
  }

  /** `GetMigratedDBVersions`, on the state before the call (the state after is `Touched`). */
  function Read(s: JournalState): (r: Result<seq<Record>, Error>)
    ensures s.NullState? ==> r == Ok([])
    ensures s.TableState? && Rows(s) == [] ==> r == Ok([])
  {
    match s
    case TableState(t) => MySqlJournal.ReadRecords(t)
    case NullState => Ok(NullJournal.GetMigratedDBVersions())
  }

  /** `StoreExecutedMigrationScript`: the outcome and the state after. */
  function StoreMigration(s: JournalState, m: DBMigrationScript): (r: (Outcome<Error>, JournalState))
    ensures WellFormed(s) ==> WellFormed(r.1)
    ensures r.0.Fail? ==> r.1 == Touched(s) && s.TableState? && m.name in s.table.faults
    ensures s.NullState? ==> r == (Pass, NullState)
  {
    match s
    case NullState => (NullJournal.StoreExecutedMigrationScript(m), NullState)
    case TableState(t) =>
      match MySqlJournal.StoreMigration(t, m)
      case Ok(t') =>
        MySqlJournal.StoreMigrationPreservesWellFormed(t, m);
        (Pass, TableState(t'))
      case Err(e) => (Fail(e), TableState(MySqlJournal.Created(t)))
  }

  /** `StoreExecutedScript`: the outcome and the state after. */
  function StoreScript(s: JournalState, script: SqlScript): (r: (Outcome<Error>, JournalState))
    ensures WellFormed(s) ==> WellFormed(r.1)
    ensures r.0.Fail? ==> r.1 == Touched(s) && s.TableState? && script.name in s.table.faults
    ensures s.NullState? ==> r == (Pass, NullState)
  {
    match s
    case NullState => (NullJournal.StoreExecutedScript(script), NullState)
    case TableState(t) =>
      match MySqlJournal.StoreScript(t, script)
      case Ok(t') =>
        MySqlJournal.StoreScriptPreservesWellFormed(t, script);
        (Pass, TableState(t'))
      case Err(e) => (Fail(e), TableState(MySqlJournal.Created(t)))
  }

  /** `HasDBVersionMigrated`: the answer (or the exception) and the state after. */
  function HasMigrated(s: JournalState, versionId: int, migrationType: MigrationType): (r: (Result<bool, Error>, JournalState))
    ensures r.1 == Touched(s)
    ensures r.0.Err? <==> s.NullState?
    ensures r.0.Err? ==> r.0.error == NotImplemented
    ensures s.TableState? ==> r.0 == Ok(MySqlJournal.HasVersion(s.table, versionId, migrationType))
  {
    match s
    case NullState => (NullJournal.HasDBVersionMigrated(versionId, migrationType), NullState)
    case TableState(t) => (Ok(MySqlJournal.HasVersion(t, versionId, migrationType)), TableState(MySqlJournal.Created(t)))
  }

  // ---- the journal objects ----

  /** A configured journal. */
  datatype Journal = MySql(table: MySqlJournal.MySqlITableJournal) | Null

  function Repr(j: Journal): set<object> {
    match j
    case MySql(t) => {t}
    case Null => {}
  }

  function State(j: Journal): JournalState
    reads Repr(j)
  {
    match j
    case MySql(t) => TableState(t.State())
    case Null => NullState
  }

  ghost predicate Valid(j: Journal)
    reads Repr(j)
  {
    j.MySql? ==> j.table.Valid()
  }

  lemma ValidIsWellFormed(j: Journal)
    requires Valid(j)
    ensures WellFormed(State(j))
  {
  }

  method GetMigratedDBVersions(j: Journal) returns (r: Result<seq<Record>, Error>)
    requires Valid(j)
    modifies Repr(j)
    ensures Valid(j) && State(j) == Touched(old(State(j)))
    ensures r == Read(old(State(j)))
  {
    match j
    case Null => r := Ok(NullJournal.GetMigratedDBVersions());
    case MySql(t) => r := t.GetMigratedDBVersions();
  }

  method StoreExecutedMigrationScript(j: Journal, m: DBMigrationScript) returns (r: Outcome<Error>)
    requires Valid(j)
    modifies Repr(j)
    ensures Valid(j)
    ensures (r, State(j)) == StoreMigration(old(State(j)), m)
  {
    match j
    case Null => r := NullJournal.StoreExecutedMigrationScript(m);
    case MySql(t) => r := t.StoreExecutedMigrationScript(m);
  }

  method StoreExecutedScript(j: Journal, script: SqlScript) returns (r: Outcome<Error>)
    requires Valid(j)
    modifies Repr(j)
    ensures Valid(j)
    ensures (r, State(j)) == StoreScript(old(State(j)), script)
  {
    match j
    case Null => r := NullJournal.StoreExecutedScript(script);
    case MySql(t) => r := t.StoreExecutedScript(script);
  }

  method HasDBVersionMigrated(j: Journal, versionId: int, migrationType: MigrationType) returns (r: Result<bool, Error>)
    requires Valid(j)
    modifies Repr(j)
    ensures Valid(j)
    ensures (r, State(j)) == HasMigrated(old(State(j)), versionId, migrationType)
  {
    match j
    case Null => r := NullJournal.HasDBVersionMigrated(versionId, migrationType);
    case MySql(t) =>
      var b := t.HasDBVersionMigrated(versionId, migrationType);
      r := Ok(b);
  }

  // ---- properties ----

  /** The null journal keeps nothing: after any write it still reads back empty. */
  lemma NullJournalKeepsNothing(m: DBMigrationScript, script: SqlScript, versionId: int, migrationType: MigrationType)
    ensures StoreMigration(NullState, m) == (Pass, NullState)
    ensures StoreScript(NullState, script) == (Pass, NullState)
    ensures Read(StoreMigration(NullState, m).1) == Ok([])
    ensures Read(StoreScript(NullState, script).1) == Ok([])
    ensures HasMigrated(NullState, versionId, migrationType).0 == Err(NotImplemented)
  {
  }

  /** Querying and reading change no row; only a missing table gets created. */
  lemma QueriesKeepRows(s: JournalState, versionId: int, migrationType: MigrationType)
    ensures Rows(HasMigrated(s, versionId, migrationType).1) == Rows(s)
    ensures Touched(Touched(s)) == Touched(s)
  {
  }
}
