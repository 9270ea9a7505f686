/**
 * `MySqlITableJournal`: the journal kept in a MySQL table, modelled as an in-memory
 * table (an existence flag, the rows with their auto-increment ids, the next id) and
 * the set of script names whose journal write the database rejects.
 */
module MySqlJournal {
  import opened Wrappers
  import opened Migrations
  import opened MigrationScripts
  import opened Decimal
  import StableSort

  // ---- identifiers ----

  /** Wraps an identifier in backticks (embedded backticks are not escaped). */
  function QuoteIdentifier(identifier: string): string {
    "`" + identifier + "`"
  }

  /** The inverse of `QuoteIdentifier` on identifiers without backticks. */
  function Unquote(quoted: string): (r: Option<string>)
    ensures r.Some? ==> '`' !in r.value && QuoteIdentifier(r.value) == quoted
  {
    if |quoted| >= 2 && quoted[0] == '`' && quoted[|quoted| - 1] == '`' && '`' !in quoted[1..|quoted| - 1]
    then Some(quoted[1..|quoted| - 1])
    else None
  }

  lemma QuoteRoundTrip(identifier: string)
    requires '`' !in identifier
    ensures Unquote(QuoteIdentifier(identifier)) == Some(identifier)
  {
    var q := QuoteIdentifier(identifier);
    assert q[1..|q| - 1] == identifier;
  }

  predicate IsNullOrEmpty(s: Option<string>) {
    s.None? || s.value == ""
  }

  /** `schemaTableName`: the quoted table, qualified by the quoted schema when there is one. */
  function SchemaTableName(schema: Option<string>, table: string): string {
    if IsNullOrEmpty(schema) then QuoteIdentifier(table)
    else QuoteIdentifier(schema.value) + "." + QuoteIdentifier(table)
  }

  /** Without a schema the name is one quoted identifier; with one, two joined by a dot. */
  lemma SchemaTableNameShape(schema: Option<string>, table: string)
    requires '`' !in table && (schema.Some? ==> '`' !in schema.value)
    ensures IsNullOrEmpty(schema) ==> Unquote(SchemaTableName(schema, table)) == Some(table)
    ensures !IsNullOrEmpty(schema) ==>
      var n := SchemaTableName(schema, table);
      var cut := |schema.value| + 2;
      && Unquote(n) == None
      && Unquote(n[..cut]) == Some(schema.value) && n[cut] == '.' && Unquote(n[cut + 1..]) == Some(table)
  {
    QuoteRoundTrip(table);
    if !IsNullOrEmpty(schema) {
      var n := SchemaTableName(schema, table);
      var cut := |schema.value| + 2;
      assert n[..cut] == QuoteIdentifier(schema.value);
      assert n[cut + 1..] == QuoteIdentifier(table);
      QuoteRoundTrip(schema.value);
      assert n[cut - 1] == '`' && cut - 1 < |n| - 1;
      assert '`' in n[1..|n| - 1] by { assert n[1..|n| - 1][cut - 2] == '`'; }
    }
  }

  // ---- the table ----

  /** A row of the journal table; the two columns a name-only insert leaves NULL are options. */
  datatype Row = Row(id: nat, versionId: Option<int>, migrationType: Option<MigrationType>, scriptName: string)

  datatype Table = Table(created: bool, rows: seq<Row>, nextId: nat, faults: set<string>)

  /** A table that does not exist has no rows; ids are auto-increment: ascending and below the next id. */
  ghost predicate WellFormed(t: Table) {
    && (!t.created ==> t.rows == [])
    && t.nextId >= 1
    && IdsAscending(t.rows)
    && IdsBelow(t.rows, t.nextId)
  }

  ghost predicate IdsAscending(rows: seq<Row>) {
    forall i, j :: 0 <= i < j < |rows| ==> rows[i].id < rows[j].id
  }

  ghost predicate IdsBelow(rows: seq<Row>, bound: nat) {
    forall i :: 0 <= i < |rows| ==> rows[i].id < bound
  }

  /** Every operation first creates the table when `DoesTableExist` finds it absent. */
  function Created(t: Table): (r: Table)
    ensures r.created && r.rows == t.rows && r.nextId == t.nextId && r.faults == t.faults
  {
    t.(created := true)
  }

  predicate HasNullColumn(r: Row) {
    r.versionId.None? || r.migrationType.None?
  }

  /**
   * `order by VersionId`. The column is declared `LONG`, which MySQL takes as MEDIUMTEXT:
   * it holds the decimal text of the version, and sorts as text (NULL first), so 10 comes
   * before 9. Ties keep id order.
   */
  predicate RowBefore(a: Row, b: Row) {
    match (a.versionId, b.versionId)
    case (None, Some(_)) => true
    case (Some(x), Some(y)) => Ordinal(LongToDecimal(x), LongToDecimal(y)) < 0
    case _ => false
  }

  lemma RowBeforeIsStrictOrder()
    ensures StableSort.StrictOrder(RowBefore)
  {
    forall x: Row
      ensures !RowBefore(x, x)
    {
      if x.versionId.Some? {
        OrdinalReflexive(LongToDecimal(x.versionId.value));
      }
    }
    forall x: Row, y: Row, z: Row | RowBefore(x, y) && RowBefore(y, z)
      ensures RowBefore(x, z)
    {
      if x.versionId.Some? {
        OrdinalStrictTransitive(LongToDecimal(x.versionId.value), LongToDecimal(y.versionId.value), LongToDecimal(z.versionId.value));
      }
    }
  }

  function OrderedRows(t: Table): seq<Row> {
    StableSort.Sort(t.rows, RowBefore)
  }

  function ToRecord(r: Row): Record
    requires !HasNullColumn(r)
  {
    Record(r.id, r.versionId.value, r.migrationType.value, r.scriptName)
  }

  /** The reader loop: a NULL `VersionId` or `MigrationType` cannot be parsed back and throws. */
  function ReadRows(rows: seq<Row>): (r: Result<seq<Record>, Error>)
    ensures r.Err? <==> exists k :: 0 <= k < |rows| && HasNullColumn(rows[k])
    ensures r.Err? ==> r == Err(JournalReadFailed)
    ensures r.Ok? ==> |r.value| == |rows| && forall k :: 0 <= k < |rows| ==> r.value[k] == ToRecord(rows[k])
  {
    if rows == [] then Ok([])
    else if HasNullColumn(rows[0]) then Err(JournalReadFailed)
    else
      match ReadRows(rows[1..])
      case Err(e) => Err(e)
      case Ok(rest) => Ok([ToRecord(rows[0])] + rest)
  }

  /** `GetMigratedDBVersions` on the table state before the call. */
  function ReadRecords(t: Table): Result<seq<Record>, Error> {
    ReadRows(OrderedRows(t))
  }

  /** What `HasDBVersionMigrated` asks: is there a row with this version and type? */
  predicate HasVersion(t: Table, versionId: int, migrationType: MigrationType) {
    exists k :: 0 <= k < |t.rows| && t.rows[k].versionId == Some(versionId) && t.rows[k].migrationType == Some(migrationType)
  }

  function InsertRow(t: Table, versionId: Option<int>, migrationType: Option<MigrationType>, name: string): Table {
    t.(rows := t.rows + [Row(t.nextId, versionId, migrationType, name)], nextId := t.nextId + 1)
  }

  /** `delete ... where ScriptName=@scriptName`: the rows of other names, in order. */
  function WithoutName(rows: seq<Row>, name: string): (r: seq<Row>)
    ensures |r| <= |rows|
    ensures forall x :: x in r <==> x in rows && x.scriptName != name
  {
    if rows == [] then []
    else if rows[0].scriptName == name then WithoutName(rows[1..], name)
    else [rows[0]] + WithoutName(rows[1..], name)
  }

  function DeleteByName(t: Table, name: string): Table {
    t.(rows := WithoutName(t.rows, name))
  }

  /** `StoreExecutedMigrationScript`: Up inserts a full row, Down deletes every row of that name. */
  function StoreMigration(t: Table, m: DBMigrationScript): Result<Table, Error> {
    var t' := Created(t);
    if m.name in t.faults then Err(JournalWriteFailed(m.name))
    else if m.performType == Up then Ok(InsertRow(t', Some(m.versionId), Some(m.migrationType), m.name))
    else Ok(DeleteByName(t', m.name))
  }

  /** `StoreExecutedScript`: a name-only insert; VersionId and MigrationType stay NULL. */
  function StoreScript(t: Table, s: SqlScript): Result<Table, Error> {
    var t' := Created(t);
    if s.name in t.faults then Err(JournalWriteFailed(s.name))
    else Ok(InsertRow(t', None, None, s.name))
  }

  // ---- properties of the table operations ----

  lemma SameNullColumns(a: seq<Row>, b: seq<Row>)
    requires multiset(a) == multiset(b)
    ensures (exists k :: 0 <= k < |a| && HasNullColumn(a[k])) <==> (exists k :: 0 <= k < |b| && HasNullColumn(b[k]))
  {
    if k :| 0 <= k < |a| && HasNullColumn(a[k]) {
      assert a[k] in multiset(b);
      var j :| 0 <= j < |b| && b[j] == a[k];
    }
    if k :| 0 <= k < |b| && HasNullColumn(b[k]) {
      assert b[k] in multiset(a);
      var j :| 0 <= j < |a| && a[j] == b[k];
    }
  }

  /** The read fails exactly when some row has a NULL column. */
  lemma ReadFailsOnNull(t: Table)
    ensures ReadRecords(t).Err? <==> exists k :: 0 <= k < |t.rows| && HasNullColumn(t.rows[k])
  {
    SameNullColumns(OrderedRows(t), t.rows);
  }

  predicate NoNulls(rows: seq<Row>) {
    forall k :: 0 <= k < |rows| ==> !HasNullColumn(rows[k])
  }

  /** The records the reader builds from rows without a NULL column, in row order. */
  function Records(rows: seq<Row>): (r: seq<Record>)
    requires NoNulls(rows)
    ensures |r| == |rows| && forall k :: 0 <= k < |rows| ==> r[k] == ToRecord(rows[k])
  {
    if rows == [] then [] else [ToRecord(rows[0])] + Records(rows[1..])
  }

  /** When it succeeds, the reader returns exactly the records of the rows it was given. */
  lemma ReadRowsAreRecords(rows: seq<Row>)
    requires ReadRows(rows).Ok?
    ensures NoNulls(rows)
    ensures ReadRows(rows).value == Records(rows)
  {
  }

  /**
   * Otherwise the records are the table's rows, permuted by the sort and read back one
   * by one, and come in ascending order of the column's text.
   */
  lemma ReadRecordsOrdered(t: Table)
    requires ReadRecords(t).Ok?
    ensures NoNulls(t.rows)
    ensures var recs := ReadRecords(t).value;
      var o := OrderedRows(t);
      && multiset(o) == multiset(t.rows) && NoNulls(o) && recs == Records(o)
      && (forall i, j :: 0 <= i < j < |recs| ==> Ordinal(LongToDecimal(recs[i].versionId), LongToDecimal(recs[j].versionId)) <= 0)
  {
    var o := OrderedRows(t);
    var recs := ReadRecords(t).value;
    RowBeforeIsStrictOrder();
    StableSort.SortSorted(t.rows, RowBefore);
    ReadFailsOnNull(t);
    ReadRowsAreRecords(o);
    forall i, j | 0 <= i < j < |recs|
      ensures Ordinal(LongToDecimal(recs[i].versionId), LongToDecimal(recs[j].versionId)) <= 0
    {
      assert !RowBefore(o[j], o[i]);
      OrdinalAntisymmetric(LongToDecimal(recs[i].versionId), LongToDecimal(recs[j].versionId));
    }
  }

  /** Between versions whose decimal texts are equally wide, the text order is the numeric order. */
  lemma ReadRecordsEqualWidthNumeric(t: Table, i: nat, j: nat)
    requires ReadRecords(t).Ok? && i < j < |ReadRecords(t).value|
    requires var recs := ReadRecords(t).value;
      recs[i].versionId >= 0 && recs[j].versionId >= 0
      && |NatToDecimal(recs[i].versionId)| == |NatToDecimal(recs[j].versionId)|
    ensures ReadRecords(t).value[i].versionId <= ReadRecords(t).value[j].versionId
  {
    var recs := ReadRecords(t).value;
    ReadRecordsOrdered(t);
    EqualWidthOrdinalIsNumeric(recs[i].versionId, recs[j].versionId);
  }

  /** In text order, version 10 is read back before version 9. */
  lemma TenReadsBeforeNine(nine: Row, ten: Row)
    requires nine.versionId == Some(9) && ten.versionId == Some(10)
    ensures OrderedRows(Table(true, [nine, ten], 3, {})) == [ten, nine]
  {
    assert LongToDecimal(10) == "10" && LongToDecimal(9) == "9";
    assert Ordinal("10", "9") < 0;
    StableSort.SortSwapsPair(nine, ten, RowBefore);
  }

  /** Some row carries this script name. */
  predicate HasRowNamed(rows: seq<Row>, name: string) {
    exists k :: 0 <= k < |rows| && rows[k].scriptName == name
  }

  /** The records read back name exactly the scripts the rows name. */
  lemma ReadRecordsNames(t: Table, name: string)
    requires ReadRecords(t).Ok?
    ensures NotJournalled(ReadRecords(t).value, name) <==> !HasRowNamed(t.rows, name)
  {
    ReadRecordsOrdered(t);
    var recs, o := ReadRecords(t).value, OrderedRows(t);
    if !NotJournalled(recs, name) {
      var k :| 0 <= k < |recs| && recs[k].scriptName == name;
      assert o[k] in multiset(t.rows);
      var j :| 0 <= j < |t.rows| && t.rows[j] == o[k];
    }
    if HasRowNamed(t.rows, name) {
      var j :| 0 <= j < |t.rows| && t.rows[j].scriptName == name;
      assert t.rows[j] in multiset(o);
      var k :| 0 <= k < |o| && o[k] == t.rows[j];
      assert recs[k].scriptName == name;
    }
  }

  /** A table without a NULL column reads back. */
  lemma NoNullsRead(t: Table)
    requires NoNulls(t.rows)
    ensures ReadRecords(t).Ok?
  {
    ReadFailsOnNull(t);
  }

  /**
   * An accepted migration write keeps every column filled, and changes only whether its
   * own name is journalled: an Up write adds it, a Down write removes it.
   */
  lemma StoreMigrationNames(t: Table, m: DBMigrationScript, name: string)
    requires StoreMigration(t, m).Ok? && NoNulls(t.rows)
    ensures var rows := StoreMigration(t, m).value.rows;
      && NoNulls(rows)
      && (HasRowNamed(rows, name) <==> if m.name == name then m.performType == Up else HasRowNamed(t.rows, name))
  {
    var rows := StoreMigration(t, m).value.rows;
    if m.performType == Up {
      assert rows == t.rows + [Row(t.nextId, Some(m.versionId), Some(m.migrationType), m.name)];
      assert rows[|t.rows|].scriptName == m.name;
      if HasRowNamed(rows, name) && m.name != name {
        var k :| 0 <= k < |rows| && rows[k].scriptName == name;
        assert rows[k] == t.rows[k];
      }
      if HasRowNamed(t.rows, name) {
        var k :| 0 <= k < |t.rows| && t.rows[k].scriptName == name;
        assert rows[k] == t.rows[k];
      }
    } else {
      assert rows == WithoutName(t.rows, m.name);
      forall k | 0 <= k < |rows|
        ensures !HasNullColumn(rows[k])
      {
        assert rows[k] in rows;
        var j :| 0 <= j < |t.rows| && t.rows[j] == rows[k];
      }
      if HasRowNamed(rows, name) {
        var k :| 0 <= k < |rows| && rows[k].scriptName == name;
        assert rows[k] in rows;
        var j :| 0 <= j < |t.rows| && t.rows[j] == rows[k];
      }
      if m.name != name && HasRowNamed(t.rows, name) {
        var j :| 0 <= j < |t.rows| && t.rows[j].scriptName == name;
        assert t.rows[j] in t.rows;
        var k :| 0 <= k < |rows| && rows[k] == t.rows[j];
      }
    }
  }

  /** A table that does not exist reads as empty (and is created). */
  lemma ReadMissingTable(t: Table)
    requires WellFormed(t) && !t.created
    ensures ReadRecords(t) == Ok([]) && Created(t).created && Created(t).rows == []
  {
  }

  /** The Up branch appends exactly one row with the script's version, type and name. */
  lemma StoreUpAppendsOneRow(t: Table, m: DBMigrationScript)
    requires WellFormed(t) && m.performType == Up && m.name !in t.faults
    ensures StoreMigration(t, m).Ok?
    ensures var t' := StoreMigration(t, m).value;
      && WellFormed(t') && t'.created
      && |t'.rows| == |t.rows| + 1 && t'.rows[..|t.rows|] == t.rows
      && t'.rows[|t.rows|].versionId == Some(m.versionId)
      && t'.rows[|t.rows|].migrationType == Some(m.migrationType)
      && t'.rows[|t.rows|].scriptName == m.name
      && HasVersion(t', m.versionId, m.migrationType)
  {
    var t' := StoreMigration(t, m).value;
    assert t'.rows[|t.rows|].versionId == Some(m.versionId);
  }

  /** The Down branch removes every row with the script's name and keeps all others, in order. */
  lemma StoreDownDeletesByName(t: Table, m: DBMigrationScript)
    requires WellFormed(t) && m.performType == Down && m.name !in t.faults
    ensures StoreMigration(t, m).Ok?
    ensures var t' := StoreMigration(t, m).value;
      && WellFormed(t') && t'.created && t'.nextId == t.nextId
      && (forall r :: r in t'.rows <==> r in t.rows && r.scriptName != m.name)
      && t'.rows == WithoutName(t.rows, m.name)
  {
    WithoutNameKeepsIds(t.rows, m.name, t.nextId);
  }

  lemma WithoutNameKeepsIds(rows: seq<Row>, name: string, bound: nat)
    requires IdsAscending(rows) && IdsBelow(rows, bound)
    ensures IdsAscending(WithoutName(rows, name)) && IdsBelow(WithoutName(rows, name), bound)
  {
    WithoutNameAscending(rows, name);
    var f := WithoutName(rows, name);
    forall i | 0 <= i < |f|
      ensures f[i].id < bound
    {
      assert f[i] in rows;
    }
  }

  /** Every row of a name-filtered list has an id above the first row's. */
  lemma WithoutNameAbove(rows: seq<Row>, name: string)
    requires |rows| > 0 && IdsAscending(rows)
    ensures forall x :: x in WithoutName(rows[1..], name) ==> rows[0].id < x.id
  {
    forall x | x in WithoutName(rows[1..], name)
      ensures rows[0].id < x.id
    {
      var k :| 0 <= k < |rows[1..]| && x == rows[1..][k];
      assert x == rows[k + 1];
    }
  }

  lemma {:induction false} WithoutNameAscending(rows: seq<Row>, name: string)
    requires IdsAscending(rows)
    ensures IdsAscending(WithoutName(rows, name))
  {
    if rows != [] {
      var g := WithoutName(rows[1..], name);
      assert IdsAscending(rows[1..]);
      WithoutNameAscending(rows[1..], name);
      if rows[0].scriptName != name {
        WithoutNameAbove(rows, name);
        ConsAscending(rows[0], g);
        assert WithoutName(rows, name) == [rows[0]] + g;
      }
    }
  }

  /** A row below every row of an ascending sequence can be put in front of it. */
  lemma ConsAscending(x: Row, g: seq<Row>)
    requires IdsAscending(g) && forall y :: y in g ==> x.id < y.id
    ensures IdsAscending([x] + g)
  {
    var f := [x] + g;
    forall i, j | 0 <= i < j < |f|
      ensures f[i].id < f[j].id
    {
      assert f[j] == g[j - 1];
      if i > 0 { assert f[i] == g[i - 1]; }
    }
  }

  /** A name-only insert appends a row whose VersionId and MigrationType are NULL. */
  lemma StoreScriptAppendsNameOnlyRow(t: Table, s: SqlScript)
    requires WellFormed(t) && s.name !in t.faults
    ensures StoreScript(t, s).Ok?
    ensures var t' := StoreScript(t, s).value;
      && WellFormed(t') && |t'.rows| == |t.rows| + 1 && t'.rows[..|t.rows|] == t.rows
      && t'.rows[|t.rows|].scriptName == s.name && HasNullColumn(t'.rows[|t.rows|])
      && ReadRecords(t').Err?
  {
    var t' := InsertRow(Created(t), None, None, s.name);
    assert StoreScript(t, s) == Ok(t');
    assert t'.rows == t.rows + [Row(t.nextId, None, None, s.name)];
    assert HasNullColumn(t'.rows[|t.rows|]);
    ReadFailsOnNull(t');
  }

  /** Both journal writes keep the table well formed. */
  lemma StoreMigrationPreservesWellFormed(t: Table, m: DBMigrationScript)
    ensures WellFormed(t) && StoreMigration(t, m).Ok? ==> WellFormed(StoreMigration(t, m).value)
  {
    if WellFormed(t) && StoreMigration(t, m).Ok? {
      if m.performType == Up { StoreUpAppendsOneRow(t, m); } else { StoreDownDeletesByName(t, m); }
    }
  }

  lemma StoreScriptPreservesWellFormed(t: Table, s: SqlScript)
    ensures WellFormed(t) && StoreScript(t, s).Ok? ==> WellFormed(StoreScript(t, s).value)
  {
    if WellFormed(t) && StoreScript(t, s).Ok? {
      StoreScriptAppendsNameOnlyRow(t, s);
    }
  }

  /** A rejected write changes no row. */
  lemma RejectedWriteKeepsRows(t: Table, m: DBMigrationScript, s: SqlScript)
    ensures m.name in t.faults ==> StoreMigration(t, m) == Err(JournalWriteFailed(m.name))
    ensures s.name in t.faults ==> StoreScript(t, s) == Err(JournalWriteFailed(s.name))
  {
  }

  // ---- the journal object ----

  class MySqlITableJournal {
    const schema: Option<string>
    const table: string
    const schemaTableName: string
    const faults: set<string>
    var created: bool
    var rows: seq<Row>
    var nextId: nat

    function State(): Table
      reads this
    {
      Table(created, rows, nextId, faults)
    }

    ghost predicate Valid()
      reads this
    {
      WellFormed(State())
    }

    /** A journal over a database whose journal table is in state `database`. */
    constructor (schema: Option<string>, table: string, database: Table)
      requires WellFormed(database)
      ensures Valid() && State() == database
      ensures this.schema == schema && this.table == table
      ensures schemaTableName == SchemaTableName(schema, table)
    {
      this.schema := schema;
      this.table := table;
      schemaTableName := SchemaTableName(schema, table);
      faults := database.faults;
      created := database.created;
      rows := database.rows;
      nextId := database.nextId;
    }

    method DoesTableExist() returns (exists_: bool)
      ensures exists_ == created
    {
      exists_ := created;
    }

    method EnsureTable()
      requires Valid() && !created
      modifies this
      ensures Valid() && State() == Created(old(State()))
    {
      created := true;
    }

    /** Creates the table when it is missing. */
    method EnsureTableExists()
      requires Valid()
      modifies this
      ensures Valid() && State() == Created(old(State()))
    {
      var exists_ := DoesTableExist();
      if !exists_ {
        EnsureTable();
      }
    }

    method GetMigratedDBVersions() returns (r: Result<seq<Record>, Error>)
      requires Valid()
      modifies this
      ensures Valid() && State() == Created(old(State()))
      ensures r == ReadRecords(old(State()))
    {
      EnsureTableExists();
      var ordered := OrderedRows(State());
      assert ordered == OrderedRows(old(State()));
      var migrated: seq<Record> := [];
      var i := 0;
      while i < |ordered|
        invariant 0 <= i <= |ordered| && |migrated| == i
        invariant forall k :: 0 <= k < i ==> !HasNullColumn(ordered[k]) && migrated[k] == ToRecord(ordered[k])
      {
        if HasNullColumn(ordered[i]) {
          assert ReadRows(ordered) == Err(JournalReadFailed);
          return Err(JournalReadFailed);
        }
        migrated := migrated + [ToRecord(ordered[i])];
        i := i + 1;
      }
      assert ReadRows(ordered).Ok?;
      assert migrated == ReadRows(ordered).value;
      r := Ok(migrated);
    }

    method StoreExecutedScript(script: SqlScript) returns (r: Outcome<Error>)
      requires Valid()
      modifies this
      ensures Valid()
      ensures match StoreScript(old(State()), script)
              case Ok(t) => r == Pass && State() == t
              case Err(e) => r == Fail(e) && State() == Created(old(State()))
    {
      EnsureTableExists();
      if script.name in faults {
        return Fail(JournalWriteFailed(script.name));
      }
      rows := rows + [Row(nextId, None, None, script.name)];
      nextId := nextId + 1;
      r := Pass;
    }

    method StoreExecutedMigrationScript(m: DBMigrationScript) returns (r: Outcome<Error>)
      requires Valid()
      modifies this
      ensures Valid()
      ensures match StoreMigration(old(State()), m)
              case Ok(t) => r == Pass && State() == t
              case Err(e) => r == Fail(e) && State() == Created(old(State()))
    {
      EnsureTableExists();
      if m.name in faults {
        return Fail(JournalWriteFailed(m.name));
      }
      if m.performType == Up {
        rows := rows + [Row(nextId, Some(m.versionId), Some(m.migrationType), m.name)];
        nextId := nextId + 1;
      } else {
        WithoutNameKeepsIds(rows, m.name, nextId);
        rows := WithoutName(rows, m.name);
      }
      r := Pass;
    }

    method HasDBVersionMigrated(versionId: int, migrationType: MigrationType) returns (b: bool)
      requires Valid()
      modifies this
      ensures Valid() && State() == Created(old(State()))
      ensures b == HasVersion(old(State()), versionId, migrationType)
    {
      EnsureTableExists();
      b := false;
      var i := 0;
      while i < |rows|
        invariant 0 <= i <= |rows|
        invariant b <==> exists k :: 0 <= k < i && rows[k].versionId == Some(versionId) && rows[k].migrationType == Some(migrationType)
      {
        if rows[i].versionId == Some(versionId) && rows[i].migrationType == Some(migrationType) {
          b := true;
        }
        i := i + 1;
      }
    }
  }
}
