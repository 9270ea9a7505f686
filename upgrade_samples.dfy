/**
 * The two BeforeCode samples of the repository: a data migration, 20160609100700, that
 * depends on a schema migration with the later version 20160609100800.
 */
module UpgradeSamples {
  import opened Wrappers
  import opened Migrations
  import opened MigrationScripts
  import opened Journals
  import opened Executors
  import opened StableSort
  import opened UpgradePlanner
  import opened UpgradeRun
  import MySqlJournal

  const SchemaSample: Migration :=
    Migration(20160609100800, "20160609100800_beforecode_schema.cs", "", BeforeCode, SchemaMigration(""))

  const DataSample: Migration :=
    Migration(20160609100700, "20160609100700_beforecode_data.cs", "", BeforeCode, DataMigration(20160609100800))

  /**
   * Discovered data-first, with nothing journalled, the BeforeCode plan still runs the
   * schema first: the data step's key starts with its dependency's version.
   */
  lemma SamplePlanRunsSchemaFirst()
    ensures Plan([DataSample, SchemaSample], [], 20160609100800, BeforeCode) == [UpScript(SchemaSample), UpScript(DataSample)]
  {
    SampleCandidates();
    SampleForwardOrder();
    assert Sort([], Descending) == [];
  }

  /** Both samples pass the BeforeCode filter and go forward; nothing rolls back. */
  lemma SampleCandidates()
    ensures StepFilter([DataSample, SchemaSample], BeforeCode) == [DataSample, SchemaSample]
    ensures ForwardCandidates([DataSample, SchemaSample], [], 20160609100800) == [UpScript(DataSample), UpScript(SchemaSample)]
    ensures RollbackCandidates([DataSample, SchemaSample], [], 20160609100800) == []
  {
    var ms := [DataSample, SchemaSample];
    assert ms[1..] == [SchemaSample] && ms[1..][1..] == [];
    assert NotJournalled([], DataSample.fileName) && NotJournalled([], SchemaSample.fileName);
    assert KeepBeforeCode([SchemaSample]) == [SchemaSample] + KeepBeforeCode([]);
    assert KeepBeforeCode(ms) == [DataSample] + KeepBeforeCode([SchemaSample]);
    assert ForwardCandidates([SchemaSample], [], 20160609100800) == [UpScript(SchemaSample)];
    assert RollbackCandidates([SchemaSample], [], 20160609100800) == [];
  }

  /** The ascending sort puts the schema step before the data step. */
  lemma SampleForwardOrder()
    ensures Sort([UpScript(DataSample), UpScript(SchemaSample)], Ascending) == [UpScript(SchemaSample), UpScript(DataSample)]
  {
    var s := UpScript(SchemaSample);
    var d := UpScript(DataSample);
    DataSortsAfterItsSchema(s, d);
    SortSwapsPair(d, s, Ascending);
  }

  /** A journal table with no rows and no rejected writes. */
  predicate EmptyTable(j: JournalState) {
    j.TableState? && j.table.rows == [] && j.table.faults == {}
  }

  /** In that order the run succeeds on an empty MySQL journal: the schema row is there when the data step asks. */
  lemma SampleRunSucceeds(w: World, faults: ExecutorFaults)
    requires EmptyTable(w.journal) && faults.failing == {}
    ensures RunMigrations([UpScript(SchemaSample), UpScript(DataSample)], w, faults).error.None?
    ensures RunMigrations([UpScript(SchemaSample), UpScript(DataSample)], w, faults).done
         == [UpScript(SchemaSample), UpScript(DataSample)]
  {
    var s := UpScript(SchemaSample);
    var d := UpScript(DataSample);
    var w1 := w.(calls := w.calls + [StepScript(s)]);
    var t1 := MySqlJournal.InsertRow(MySqlJournal.Created(w.journal.table), Some(s.versionId), Some(Schema), s.name);
    assert MigrationStep(s, w, faults) == Completed(w1.(journal := TableState(t1)));
    var w2 := w1.(journal := TableState(t1));
    assert t1.rows[0].versionId == Some(20160609100800) && t1.rows[0].migrationType == Some(Schema);
    assert MySqlJournal.HasVersion(t1, 20160609100800, Schema);
    var done := MigrationStep(d, w2, faults);
    assert done.Completed?;
    assert [s, d][1..] == [d] && [d][1..] == [];
    assert RunMigrations([d], w2, faults) == Prepend(d, RunMigrations([], done.world, faults));
    assert RunMigrations([s, d], w, faults) == Prepend(s, RunMigrations([d], w2, faults));
  }

  /** Left in discovery order the same steps fail at once: the schema is not journalled yet. */
  lemma UnsortedSampleFails(w: World, faults: ExecutorFaults)
    requires EmptyTable(w.journal)
    ensures RunMigrations([UpScript(DataSample), UpScript(SchemaSample)], w, faults)
         == Walk([], Some(UpgradeError(DependencyMissing(20160609100800, DataSample.fileName), None)), w.(journal := Touched(w.journal)))
  {
    assert !MySqlJournal.HasVersion(w.journal.table, 20160609100800, Schema);
  }
}
