# DbUp versioned migrations, modelled in Dafny

This project models the core of the N4L fork of DbUp. That core covers:

- the `UpgradeEngine` that plans and runs versioned database migrations;
- the legacy flat-script path beside it;
- the sort key that orders migration steps;
- the two journals: the MySQL table journal and the null journal;
- the two script providers: static scripts and a migration-source directory;
- the parsers that recognize migration files.

The engine is a class whose methods are proved against functions. Those functions give the same run as a value of the world before it: the journal state, the log of executor calls and the number of schema checks. The lemmas state what a run promises.

- `UpgradeEngine.UpgradeEngine` is a class over a journal object and a logging `ScriptExecutor`. Its methods `GetDBMigrationsToExecuteInsideOperation`, `PerformDBMigration`, `GetScriptsToExecuteInsideOperation`, `PerformUpgrade`, `IsUpgradeRequired`, `MarkAsExecuted` and `MarkAsExecutedUpTo` follow the functions of `UpgradeRun` exactly. Their `foreach` loops (`ExecuteMigrations`, `RunScriptLoop`, `MarkLoop`) keep a loop invariant of the form "the whole walk equals the completed prefix followed by the walk from here".
- `UpgradePlanner` holds the two LINQ pipelines:
  - the versioned plan: forward steps in ascending key order, then schema rollbacks in descending order;
  - the legacy pending list.
- `StableSort` is a stable insertion sort that stands for `OrderBy`/`OrderByDescending`.
- `MigrationScripts` is `DBMigrationScript`: the `_sortingValue` key and the ordinal `CompareTo`.
- `MySqlJournal` is the journal table. It has an existence flag, rows with auto-increment ids, the next id, and the set of script names whose write the database rejects. The `MySqlITableJournal` class updates these fields in place.
- `NullJournal`, `StaticScriptProvider`, `DBMigrationScriptProvider` and `InMemorySourceFile` are the remaining core files.
- `Journals` and `ScriptProviders` stand for the `IJournal` and `IScriptProvider` interfaces. Each is a tagged datatype over its two implementations, with dispatching functions and methods.
- `Executors` is the script executor. It logs every call, and its failures are inputs: the set of script names whose execution throws, and a flag for a failing `VerifySchema`.
- `UpgradeProperties` and `UpgradeSamples` hold the run-level properties and the repository's BeforeCode samples as concrete inputs.

Exceptions become `Result`/`Outcome` values. `DatabaseUpgradeResult` becomes `UpgradeResult(scripts, successful, error)`. Its error carries the script name that the catch block attaches through `ex.Data`, when there is one.

## Model

| member | source | states |
|---|---|---|
| UpgradeEngine.UpgradeEngine.GetDBMigrationsToExecuteInsideOperation | src/DbUp/Engine/UpgradeEngine.cs:180-221 | the result and the journal state after it are the providers' migrations (enumerated first), then the journal read, then the plan; a provider or journal exception is returned |
| UpgradeEngine.UpgradeEngine.PerformDBMigration | src/DbUp/Engine/UpgradeEngine.cs:53-110 | the upgrade result, the journal, the executor log and the schema-check count after the call are those of `UpgradeRun.PerformDBMigration` on the state before it |
| UpgradeEngine.UpgradeEngine.ExecutePlan | src/DbUp/Engine/UpgradeEngine.cs:67-101 | an empty plan returns success with nothing executed; otherwise the schema is verified once and the plan is walked |
| UpgradeEngine.UpgradeEngine.ExecuteMigrations | src/DbUp/Engine/UpgradeEngine.cs:75-98 | the `foreach` returns the completed steps and the exception that stopped it, as `UpgradeRun.RunMigrations` |
| UpgradeEngine.UpgradeEngine.PerformMigrationStep | src/DbUp/Engine/UpgradeEngine.cs:77-97 | one iteration, in order: dependency check against the live journal, execute the Up or Down text, journal the step; each way out as `UpgradeRun.MigrationStep` |
| UpgradeEngine.UpgradeEngine.GetScriptsToExecuteInsideOperation | src/DbUp/Engine/UpgradeEngine.cs:172-178 | the journal is read, then the providers are enumerated; the result is the pending list or the exception |
| UpgradeEngine.UpgradeEngine.IsUpgradeRequired | src/DbUp/Engine/UpgradeEngine.cs:32-35 | true iff the pending list is non-empty; its exceptions reach the caller |
| UpgradeEngine.UpgradeEngine.PerformUpgrade | src/DbUp/Engine/UpgradeEngine.cs:115-158 | result and new state as `UpgradeRun.PerformUpgrade` |
| UpgradeEngine.UpgradeEngine.ExecuteScripts | src/DbUp/Engine/UpgradeEngine.cs:129-149 | nothing pending returns success without checking the schema; otherwise verify once and walk the pending list |
| UpgradeEngine.UpgradeEngine.RunScriptLoop | src/DbUp/Engine/UpgradeEngine.cs:137-146 | the legacy `foreach`: execute, journal, append; stops at the first exception, which names the script |
| UpgradeEngine.UpgradeEngine.MarkAsExecuted | src/DbUp/Engine/UpgradeEngine.cs:240-265 | result and new state as `UpgradeRun.MarkAsExecuted` with no name: every pending script is journalled, none executed; `MarkAsExecutedRunsNothing` states what the journal then holds |
| UpgradeEngine.UpgradeEngine.MarkAsExecutedUpTo | src/DbUp/Engine/UpgradeEngine.cs:267-296 | result and new state as `UpgradeRun.MarkAsExecuted` with `latestScript`: the same, stopping after the first pending script of that name |
| UpgradeEngine.UpgradeEngine.MarkLoop | src/DbUp/Engine/UpgradeEngine.cs:276-285 | the marking `foreach` with its `break` returns the marked scripts, the exception and the journal after it as `UpgradeRun.MarkScripts`, whose journal effect `MarkScriptsAppendsNameOnlyRows` states |
| UpgradePlanner.AllMigrations | src/DbUp/Engine/UpgradeEngine.cs:182-183 | succeeds iff every provider supplies migrations; concatenated in provider order |
| UpgradePlanner.AllScripts | src/DbUp/Engine/UpgradeEngine.cs:174 | succeeds iff every provider supplies scripts |
| UpgradePlanner.StepFilter | src/DbUp/Engine/UpgradeEngine.cs:185-188 | at BeforeCode a migration is kept iff it asks for BeforeCode; any other step keeps everything |
| UpgradePlanner.UpScript | src/DbUp/Engine/UpgradeEngine.cs:194-200 | an Up step with the migration's version, file name and Up text; Data type with its dependency exactly for data migrations |
| UpgradePlanner.DownScript | src/DbUp/Engine/UpgradeEngine.cs:209-212 | a Down Schema step without dependency, carrying the Down text |
| UpgradePlanner.ForwardCandidates | src/DbUp/Engine/UpgradeEngine.cs:192-200 | a step is a candidate iff it is the Up step of a migration whose file name is not journalled and whose version is at most the target; at most one per migration |
| UpgradePlanner.RollbackCandidates | src/DbUp/Engine/UpgradeEngine.cs:204-212 | a step is a candidate iff it is the Down step of a journalled schema migration whose version is above the target; at most one per migration |
| UpgradePlanner.PendingScripts | src/DbUp/Engine/UpgradeEngine.cs:177 | a script is pending iff it is supplied and no record carries its name |
| UpgradePlanner.SortOrdersAreStrictWeak | src/DbUp/Engine/UpgradeEngine.cs:201-213 | both key orders are strict weak orders |
| UpgradePlanner.ForwardIsSortedPermutation | src/DbUp/Engine/UpgradeEngine.cs:192-202 | the forward list is a permutation of the candidates in non-decreasing `CompareTo` order |
| UpgradePlanner.RollbackIsSortedPermutation | src/DbUp/Engine/UpgradeEngine.cs:204-214 | the rollback list is a permutation of the candidates in non-increasing order |
| UpgradePlanner.PlanIsStable | src/DbUp/Engine/UpgradeEngine.cs:201-213 | steps with equal keys keep their input order in both lists |
| UpgradePlanner.ForwardStepsAreUp | src/DbUp/Engine/UpgradeEngine.cs:192-202 | every forward step is a candidate and an Up step |
| UpgradePlanner.RollbackStepsAreDown | src/DbUp/Engine/UpgradeEngine.cs:204-214 | every rollback step is a Down schema step above the target |
| UpgradePlanner.PlanUpsThenDowns | src/DbUp/Engine/UpgradeEngine.cs:216-220 | the plan is all forward steps followed by all rollback steps, with length the sum of the two |
| UpgradePlanner.BeforeCodePlansOnlyBeforeCode | src/DbUp/Engine/UpgradeEngine.cs:185-188 | at BeforeCode every planned step comes from a migration that asks for BeforeCode |
| UpgradePlanner.NoPreferenceExcludedBeforeCode | src/DbUp/Engine/UpgradeEngine.cs:185-188 | among any migrations, a NoPreference migration is never planned at BeforeCode, despite the comment: no planned step carries its file name unless a BeforeCode migration has the same one |
| UpgradePlanner.NoBeforeCodePlansNothing | src/DbUp/Engine/UpgradeEngine.cs:185-188 | when every migration has NoPreference, the BeforeCode plan is empty |
| UpgradePlanner.ForwardCandidatesAppend | src/DbUp/Engine/UpgradeEngine.cs:192-200 | the forward filter distributes over concatenation, so candidates keep provider order |
| UpgradePlanner.RollbackCandidatesAppend | src/DbUp/Engine/UpgradeEngine.cs:204-212 | the rollback filter distributes over concatenation as well |
| UpgradePlanner.PlanMembers | src/DbUp/Engine/UpgradeEngine.cs:192-220 | a step is planned iff it is a forward or a rollback candidate |
| UpgradePlanner.PlanStepsOfMigration | src/DbUp/Engine/UpgradeEngine.cs:192-220 | with unique file names, the steps planned under a migration's file name are its own: all Up and including its Up step when it is a forward candidate, all Down and including its Down step when it is a rollback candidate, none otherwise |
| UpgradePlanner.PendingAppend | src/DbUp/Engine/UpgradeEngine.cs:174-177 | the pending filter distributes over concatenation, so it keeps provider order |
| UpgradePlanner.NothingJournalledKeepsAll | src/DbUp/Engine/UpgradeEngine.cs:177 | with no matching record every script is pending, in order |
| UpgradeProperties.StepEffects | src/DbUp/Engine/UpgradeEngine.cs:77-97 | a completed step ran its script once and stored it; a stopped step ran it at most once and left the journal as it was, apart from creating the table |
| UpgradeProperties.StopNamesTheStep | src/DbUp/Engine/UpgradeEngine.cs:83-109 | a stopped step's error names the step: attached by the catch block, or inside the dependency error |
| UpgradeProperties.MissingDependencyRunsNothing | src/DbUp/Engine/UpgradeEngine.cs:83-91 | a data step whose schema row is missing stops with `DependencyMissing`, runs nothing and keeps the rows |
| UpgradeProperties.DependencyStopChangesNothing | src/DbUp/Engine/UpgradeEngine.cs:83-91 | a dependency stop changes nothing but the table's existence |
| UpgradeProperties.RunMigrationsPrefix | src/DbUp/Engine/UpgradeEngine.cs:75-109 | the executed list is a prefix of the plan; it equals the plan iff there was no exception; an exception leaves a strict prefix |
| UpgradeProperties.RunMigrationsStopsAtStep | src/DbUp/Engine/UpgradeEngine.cs:75-109 | on failure the prefix completes on its own, and the next step, run on the world it leaves, stops with the same error and world |
| UpgradeProperties.FailedStepIsNamed | src/DbUp/Engine/UpgradeEngine.cs:77-106 | the step after the executed prefix is the one the error names |
| UpgradeProperties.RunMigrationsCalls | src/DbUp/Engine/UpgradeEngine.cs:79-97 | the executor ran the executed steps' scripts in order, plus at most the failing one; the schema is not checked again |
| UpgradeProperties.RunMigrationsJournal | src/DbUp/Engine/UpgradeEngine.cs:95-109 | the journal ends as if exactly the executed steps had been stored in turn: rows of earlier steps remain, and nothing else is written |
| UpgradeProperties.MissingDependencyStopsBeforeStep | src/DbUp/Engine/UpgradeEngine.cs:83-91 | on a dependency stop, exactly the steps before it ran and were stored; that step was neither executed nor journalled |
| UpgradeProperties.NullJournalStopsAtDataStep | src/DbUp/Helpers/NullJournal.cs:37-40 | with the null journal, a walk that contains a data step fails |
| UpgradeProperties.ExecutePlanRunsPrefix | src/DbUp/Engine/UpgradeEngine.cs:67-101 | an empty plan succeeds with no call and no schema check; otherwise one check, a prefix run, success iff the whole plan ran, and then exactly the plan's scripts were called |
| UpgradeProperties.PerformDBMigrationRunsPlanPrefix | src/DbUp/Engine/UpgradeEngine.cs:53-110 | the same for the whole call, against the plan it computed; journal rows are those of the executed steps |
| UpgradeProperties.StaticProviderFailsMigration | src/DbUp/ScriptProviders/StaticScriptProvider.cs:38-41 | with any static provider, `PerformDBMigration` fails with nothing executed and the world untouched |
| UpgradeProperties.NullJournalFailsDataMigrations | src/DbUp/Helpers/NullJournal.cs:37-40 | with the null journal, a plan that holds a data step never succeeds |
| UpgradeProperties.JournalledAfterOneKind | src/DbUp/Support/MySql/MySqlITableJournal.cs:169-205 | when every step under a name goes the same way, the name ends journalled iff that way is Up; with no such step it keeps its state |
| UpgradeProperties.RunMigrationsNames | src/DbUp/Engine/UpgradeEngine.cs:75-109 | on the MySQL table a walk keeps every column filled, and a name ends journalled exactly as the completed steps say (an Up adds it, a Down removes it), whatever stopped the walk |
| UpgradeProperties.PerformDBMigrationNames | src/DbUp/Engine/UpgradeEngine.cs:53-110 | the same for a whole `PerformDBMigration` call and the steps it reports |
| UpgradeProperties.ReplanAfterSteps | src/DbUp/Engine/UpgradeEngine.cs:192-220 | planning against the journal a run left: with unique file names, the new plan's steps are exactly the first plan's steps whose names no completed step carries |
| UpgradeProperties.RerunResumes | src/DbUp/Engine/UpgradeEngine.cs:53-110 | after a run on the MySQL journal, failed or not, the journal reads back and calling again plans exactly the first plan's steps not yet completed: a failed run resumes where it stopped |
| UpgradeProperties.RerunPlansNothing | src/DbUp/Engine/UpgradeEngine.cs:53-110 | after a successful run on the MySQL journal, with unique file names, the second call plans nothing and succeeds with no call, no schema check and the same rows |
| UpgradeProperties.RunScriptsPrefix | src/DbUp/Engine/UpgradeEngine.cs:137-157 | the legacy walk runs a prefix; it succeeds iff it ran all of it, and then the calls are exactly the pending list |
| UpgradeProperties.RunScriptsAppendsNameOnlyRows | src/DbUp/Support/MySql/MySqlITableJournal.cs:119-149 | on the MySQL table each completed script appends one row carrying only its name, and earlier rows are untouched |
| UpgradeProperties.ScriptRowsBreakVersionedReads | src/DbUp/Support/MySql/MySqlITableJournal.cs:97-105 | once one script has been journalled this way, every later read of the MySQL journal throws |
| UpgradeProperties.PerformUpgradeRunsPending | src/DbUp/Engine/UpgradeEngine.cs:115-158 | `PerformUpgrade` executes a prefix of the pending list; it succeeds iff that is the whole list, and then exactly those scripts were called |
| UpgradeProperties.ScriptsFailOnlyForDirectories | src/DbUp/ScriptProviders/DBMigrationScriptProvider.cs:39-42 | enumerating scripts fails iff some provider is a migration directory, and then with `NotImplemented` |
| UpgradeProperties.DirectoryProviderFailsScripts | src/DbUp/Engine/UpgradeEngine.cs:245-263 | with a directory provider, `PerformUpgrade` and `MarkAsExecuted` fail with an empty list and no call, and `IsUpgradeRequired` throws |
| UpgradeProperties.UpgradeRequiredIffPending | src/DbUp/Engine/UpgradeEngine.cs:32-35 | `IsUpgradeRequired` is true iff something is pending, and false iff nothing is |
| UpgradeProperties.NotRequiredRunsNothing | src/DbUp/Engine/UpgradeEngine.cs:129-133 | when no upgrade is required, `PerformUpgrade` succeeds with nothing executed and no schema check |
| UpgradeProperties.MarkScriptsPrefix | src/DbUp/Engine/UpgradeEngine.cs:276-285 | marking never calls the executor; it marks a prefix ending at the first script named `latest`, or all if none matches |
| UpgradeProperties.MarkScriptsAppendsNameOnlyRows | src/DbUp/Engine/UpgradeEngine.cs:276-285 | on the MySQL table the rows after marking are the old rows followed by one name-only row per marked script, in order |
| UpgradeProperties.MarkScriptsNullJournal | src/DbUp/Helpers/NullJournal.cs:26-27 | under the null journal marking cannot fail and the journal stays null |
| UpgradeProperties.MarkAsExecutedRunsNothing | src/DbUp/Engine/UpgradeEngine.cs:240-296 | both overloads leave the executor untouched and mark such a prefix of the pending list; on the MySQL table the rows become the old rows followed by a name-only row per marked script; under the null journal the journal stays null and the call succeeds |
| UpgradeProperties.NullJournalPendsEverything | src/DbUp/Helpers/NullJournal.cs:17-20 | under the null journal every supplied script is pending and the journal stays empty |
| UpgradeProperties.NullJournalRunsAll | src/DbUp/Helpers/NullJournal.cs:26-27 | under the null journal and no executor fault, the legacy walk runs every script |
| UpgradeProperties.NullJournalRerunsEverything | src/DbUp/Helpers/NullJournal.cs:8-11 | two `PerformUpgrade` calls in a row both run the full script list |
| UpgradeSamples.SamplePlanRunsSchemaFirst | src/Samples/DBMigrationSample/Data/20160609100700_beforecode_data.cs:7-14 | supplied data-first, the BeforeCode sample plan runs the schema 20160609100800 before the data step that depends on it |
| UpgradeSamples.SampleRunSucceeds | src/Samples/DBMigrationSample/Schema/20160609100800_beforecode_schema.cs:7-14 | in plan order, on an empty MySQL journal, both sample steps complete |
| UpgradeSamples.UnsortedSampleFails | src/DbUp/Engine/UpgradeEngine.cs:83-91 | in discovery order the data step fails at once with `DependencyMissing` |
| UpgradeRun.StepScript | src/DbUp/Engine/UpgradeEngine.cs:79-81 | the script run for a step carries the step's file name |
| MigrationScripts.Ordinal | src/DbUp/Engine/DBMigrationScript.cs:73 | `string.Compare` with `Ordinal`, as a sign in -1..1 |
| MigrationScripts.OrdinalZeroIsEqual | src/DbUp/Engine/DBMigrationScript.cs:73 | ordinal comparison is 0 iff the strings are equal |
| MigrationScripts.OrdinalCommonPrefix | src/DbUp/Engine/DBMigrationScript.cs:73 | a shared prefix does not affect the comparison |
| MigrationScripts.EqualWidthOrdinalIsNumeric | src/DbUp/Engine/DBMigrationScript.cs:61-73 | decimal texts of equal width compare like their numbers |
| MigrationScripts.CompareToProperties | src/DbUp/Engine/DBMigrationScript.cs:71-74 | `CompareTo` is reflexive, antisymmetric in sign and transitive, both non-strict and strict |
| MigrationScripts.KeyIgnoresNameAndDirection | src/DbUp/Engine/DBMigrationScript.cs:61-74 | steps with equal dependency and version compare 0, whatever their name and perform type |
| MigrationScripts.DataSortsAfterItsSchema | src/DbUp/Engine/DBMigrationScript.cs:61-73 | with 14-digit versions, a data step sorts strictly after the schema step it depends on |
| MigrationScripts.DataSortsBeforeLaterVersions | src/DbUp/Engine/DBMigrationScript.cs:61-73 | and strictly before any step without dependency whose version is above that dependency |
| MigrationScripts.EqualWidthNoDependencyIsNumeric | src/DbUp/Engine/DBMigrationScript.cs:63-73 | steps without dependency with equal-width versions compare as their versions |
| MigrationScripts.NineSortsAfterTen | src/DbUp/Engine/DBMigrationScript.cs:63-73 | with unequal widths the order is not numeric: version 9 sorts after version 10 |
| StableSort.SortSorted | src/DbUp/Engine/UpgradeEngine.cs:201-213 | sorting with a strict weak order yields a sorted sequence |
| StableSort.SortStable | src/DbUp/Engine/UpgradeEngine.cs:201-213 | sorting preserves the relative order of elements with equal keys |
| StableSort.Sort | src/DbUp/Engine/UpgradeEngine.cs:201-213 | the sorted list is a permutation of its input |
| MySqlJournal.SchemaTableNameShape | src/DbUp/Support/MySql/MySqlITableJournal.cs:24-42 | without a schema the name is the quoted table; with one, the quoted schema, a dot, then the quoted table |
| MySqlJournal.QuoteRoundTrip | src/DbUp/Support/MySql/MySqlITableJournal.cs:24-27 | quoting in backticks is undone by unquoting, for identifiers without backticks |
| MySqlJournal.ReadRows | src/DbUp/Support/MySql/MySqlITableJournal.cs:95-108 | the reader loop fails iff some row has a NULL version or type; otherwise it returns one record per row, in order |
| MySqlJournal.ReadFailsOnNull | src/DbUp/Support/MySql/MySqlITableJournal.cs:97-105 | reading the table fails iff some row has a NULL column |
| MySqlJournal.ReadRecordsOrdered | src/DbUp/Support/MySql/MySqlITableJournal.cs:53-256 | the records are the table's rows, permuted and read back one by one, in ascending order of the `LONG` (text) column: ordinal order of the versions' decimal texts |
| MySqlJournal.ReadRecordsEqualWidthNumeric | src/DbUp/Support/MySql/MySqlITableJournal.cs:53-256 | between non-negative versions of equal decimal width, the read order is numeric |
| MySqlJournal.TenReadsBeforeNine | src/DbUp/Support/MySql/MySqlITableJournal.cs:53-256 | `order by VersionId` puts a row with version 10 before one with version 9 stored ahead of it, whatever their ids |
| MySqlJournal.ReadRecordsNames | src/DbUp/Support/MySql/MySqlITableJournal.cs:92-108 | the records read back name exactly the scripts the rows name |
| MySqlJournal.NoNullsRead | src/DbUp/Support/MySql/MySqlITableJournal.cs:97-105 | a table without a NULL column reads back |
| MySqlJournal.StoreMigrationNames | src/DbUp/Support/MySql/MySqlITableJournal.cs:169-205 | an accepted migration write keeps every column filled and changes only whether its own name is journalled: Up adds it, Down removes it |
| MySqlJournal.ReadMissingTable | src/DbUp/Support/MySql/MySqlITableJournal.cs:79-85 | a missing table is created and reads back empty |
| MySqlJournal.StoreUpAppendsOneRow | src/DbUp/Support/MySql/MySqlITableJournal.cs:169-195 | Up appends exactly one row with the step's version, type and name and the next id; existing rows are untouched; no uniqueness check |
| MySqlJournal.StoreDownDeletesByName | src/DbUp/Support/MySql/MySqlITableJournal.cs:196-205 | Down removes every row of that name and nothing else, names compared as under a binary collation |
| MySqlJournal.WithoutName | src/DbUp/Support/MySql/MySqlITableJournal.cs:198-199 | a row survives iff its name differs, compared as under a binary collation |
| MySqlJournal.WithoutNameKeepsIds | src/DbUp/Support/MySql/MySqlITableJournal.cs:52-199 | deleting keeps the ids ascending and below the next id |
| MySqlJournal.StoreScriptAppendsNameOnlyRow | src/DbUp/Support/MySql/MySqlITableJournal.cs:129-148 | a script write appends one row carrying only the script name |
| MySqlJournal.StoreMigrationPreservesWellFormed | src/DbUp/Support/MySql/MySqlITableJournal.cs:155-214 | a successful migration write keeps the table well formed |
| MySqlJournal.StoreScriptPreservesWellFormed | src/DbUp/Support/MySql/MySqlITableJournal.cs:119-149 | a successful script write keeps the table well formed |
| MySqlJournal.RejectedWriteKeepsRows | src/DbUp/Support/MySql/MySqlITableJournal.cs:146-208 | a write the database rejects throws with that script's name |
| MySqlJournal.MySqlITableJournal.constructor | src/DbUp/Support/MySql/MySqlITableJournal.cs:36-45 | keeps schema and table and builds `schemaTableName` from them |
| MySqlJournal.MySqlITableJournal.DoesTableExist | src/DbUp/Support/MySql/MySqlITableJournal.cs:258-274 | answers the existence flag |
| MySqlJournal.MySqlITableJournal.EnsureTable | src/DbUp/Support/MySql/MySqlITableJournal.cs:60-74 | creates the missing table; nothing else changes |
| MySqlJournal.MySqlITableJournal.GetMigratedDBVersions | src/DbUp/Support/MySql/MySqlITableJournal.cs:76-113 | creates a missing table, then returns what `ReadRecords` gives on the table before the call |
| MySqlJournal.MySqlITableJournal.StoreExecutedScript | src/DbUp/Support/MySql/MySqlITableJournal.cs:119-149 | creates a missing table, then the table becomes what `StoreScript` gives, or the exception is returned |
| MySqlJournal.MySqlITableJournal.StoreExecutedMigrationScript | src/DbUp/Support/MySql/MySqlITableJournal.cs:155-214 | the same with `StoreMigration` |
| MySqlJournal.MySqlITableJournal.HasDBVersionMigrated | src/DbUp/Support/MySql/MySqlITableJournal.cs:216-251 | creates a missing table; true iff some row has that version and type |
| Journals.Read | src/DbUp/Helpers/NullJournal.cs:17-20 | the null journal reads back empty; so does an empty table |
| Journals.StoreMigration | src/DbUp/Support/MySql/MySqlITableJournal.cs:155-214 | a failed write only happens on the table, for a name the database rejects, and leaves the journal as it was apart from creating the table; the null journal always passes and stays null; writes keep the table well formed |
| Journals.HasMigrated | src/DbUp/Helpers/NullJournal.cs:37-40 | fails iff the journal is the null journal, with `NotImplemented`; on the table it is `HasVersion` |
| Journals.NullJournalKeepsNothing | src/DbUp/Helpers/NullJournal.cs:17-40 | after any write the null journal still reads empty, and its query throws |
| NullJournal.GetMigratedDBVersions | src/DbUp/Helpers/NullJournal.cs:17-20 | always empty |
| NullJournal.StoreExecutedScript | src/DbUp/Helpers/NullJournal.cs:26-27 | never fails (and holds no state to change) |
| NullJournal.StoreExecutedMigrationScript | src/DbUp/Helpers/NullJournal.cs:33-35 | never fails |
| NullJournal.HasDBVersionMigrated | src/DbUp/Helpers/NullJournal.cs:37-40 | always throws `NotImplemented` |
| Executors.ExecuteResult | src/DbUp/Engine/UpgradeEngine.cs:93 | execution fails iff the script's name is one the database rejects, and then with `ExecutionFailed` of that name |
| StaticScriptProvider.GetScripts | src/DbUp/ScriptProviders/StaticScriptProvider.cs:20-31 | always the constructor's list, unchanged and in order |
| StaticScriptProvider.GetDBMigrations | src/DbUp/ScriptProviders/StaticScriptProvider.cs:33-41 | both implementations throw `NotImplemented` |
| ScriptProviders.GetScripts | src/DbUp/ScriptProviders/DBMigrationScriptProvider.cs:39-42 | fails iff the provider is a migration directory |
| ScriptProviders.GetDBMigrations | src/DbUp/ScriptProviders/StaticScriptProvider.cs:38-41 | a static provider throws; a directory provider collects its migrations |
| DBMigrationScriptProvider.GetVersion | src/DbUp/ScriptProviders/DBMigrationScriptProvider.cs:178-191 | none when the name is shorter than the prefix; a value iff the prefix is non-empty decimal digits within `long`; that value is the prefix's number |
| DBMigrationScriptProvider.VersionIgnoresSuffix | src/DbUp/ScriptProviders/DBMigrationScriptProvider.cs:183 | characters after the prefix never affect the version |
| DBMigrationScriptProvider.VersionRoundTrip | src/DbUp/ScriptProviders/DBMigrationScriptProvider.cs:183-184 | a file name that starts with a number's decimal text parses back to that number |
| DBMigrationScriptProvider.FourteenDigitPrefixParses | src/DbUp/ScriptProviders/DBMigrationScriptProvider.cs:183-184 | fourteen leading digits always parse to their value |
| DBMigrationScriptProvider.TryGetMigration | src/DbUp/ScriptProviders/DBMigrationScriptProvider.cs:78-108 | rejected iff there is no version or the source is not a migration; compilation errors propagate; an accepted migration has the parsed version and the bare file name |
| DBMigrationScriptProvider.GetMigrationsFromDirectory | src/DbUp/ScriptProviders/DBMigrationScriptProvider.cs:59-76 | the loop collects exactly what `CollectMigrations` gives, which holds the migrations of all the accepted files and only them (CollectedComeFromAcceptedFiles, CollectsEveryAcceptedFile), or the first compilation error (CollectFailsAtFirstError) |
| DBMigrationScriptProvider.CollectedComeFromAcceptedFiles | src/DbUp/ScriptProviders/DBMigrationScriptProvider.cs:65-73 | every collected migration is what some file is accepted as |
| DBMigrationScriptProvider.CollectsEveryAcceptedFile | src/DbUp/ScriptProviders/DBMigrationScriptProvider.cs:59-76 | when the scan succeeds, the migration of every accepted file is collected: nothing discovered is lost |
| DBMigrationScriptProvider.CollectFailsAtFirstError | src/DbUp/ScriptProviders/DBMigrationScriptProvider.cs:59-76 | the scan throws iff some file's compilation throws, and then with the first such file's error, every earlier file having been read cleanly |
| DBMigrationScriptProvider.AllRejectedYieldsNothing | src/DbUp/ScriptProviders/DBMigrationScriptProvider.cs:98-102 | a directory whose names carry no version yields no migration |
| DBMigrationScriptProvider.GetScripts | src/DbUp/ScriptProviders/DBMigrationScriptProvider.cs:39-42 | always throws `NotImplemented` |
| InMemorySourceFile.IndexOf | src/DbUp/Helpers/InMemorySourceFile.cs:59-60 | a regex's first match position: the first occurrence, or none iff there is no occurrence |
| InMemorySourceFile.RunEnd | src/DbUp/Helpers/InMemorySourceFile.cs:55-56 | the end of the maximal run of class characters from a position |
| InMemorySourceFile.IsMigrationIffContainsWord | src/DbUp/Helpers/InMemorySourceFile.cs:42-45 | `\w*Migration` matches iff the source contains "Migration" |
| InMemorySourceFile.TypeNameEmptyUnlessBoth | src/DbUp/Helpers/InMemorySourceFile.cs:58-66 | the type name is empty iff "namespace " or "class " does not occur (when both do, it holds at least the dot) |
| InMemorySourceFile.TypeNameParts | src/DbUp/Helpers/InMemorySourceFile.cs:55-65 | namespace, a dot, then class, each the maximal run after the first keyword occurrence |
| Decimal.DecimalRoundTrip | src/DbUp/Engine/DBMigrationScript.cs:61-63 | the decimal text of a version reads back as that version |

## Left out

- The interfaces `IJournal` and `IScriptProvider` are tagged datatypes over their two implementations, not interfaces that other journals or providers could implement.
- `ConnectionManager.OperationStarting`, `TryConnect`, all logging and variable substitution are not modelled. They are I/O or calls into code outside the model; the operation scope counts as a bracket that does nothing.
- The public wrappers `GetScriptsToExecute` and `GetMigratedDBVersions` (src/DbUp/Engine/UpgradeEngine.cs:164-170, 227-233) add only an operation scope. `IsUpgradeRequired` calls the pending list directly.
- `ScriptExecutor.Execute` and `VerifySchema` are reduced to a call log with injected failures. The SQL they run is not modelled.
- SQL text, the `CREATE TABLE` statement, `INFORMATION_SCHEMA` probing and `CreatedOn`/`DateTime.Now` timestamps are not modelled. A failing existence probe counts as "absent", which is what the flag models. The table keeps its rows abstractly.
- MySqlJournal.OrderedRows: `VersionId` is declared `LONG`, which MySQL takes as `MEDIUMTEXT`, so `order by VersionId` sorts the versions' decimal texts. The model compares them in ordinal order; a real collation may order the '-' of a negative version differently, which is not modelled. Ties are listed in id order. MySQL promises no tie order, so the model picks one.
- MySqlJournal.StoreScript: the source inserts into `(ScriptName, Applied)` (src/DbUp/Support/MySql/MySqlITableJournal.cs:133), but the table has no `Applied` column and its `VersionId`/`MigrationType` are `NOT NULL` (lines 53-56). A real database would reject that insert. The model keeps the evident intent: a row that carries only the name. `UpgradeProperties.ScriptRowsBreakVersionedReads` shows what such rows then do to the versioned reader.
- StoreDownDeletesByName: script names are compared exactly, as under a binary collation. `ScriptName` is a `VARCHAR(512)` without `COLLATE` (src/DbUp/Support/MySql/MySqlITableJournal.cs:55), so the server's default collation applies. The usual defaults ignore case, latin1_swedish_ci and the 5.x collations also ignore trailing spaces, and utf8mb4_0900_ai_ci also ignores accents. Under such a collation, a Down step for "A.cs" also deletes a row named "a.cs"; the model keeps that row.
- WithoutName, DeleteByName and StoreMigration: the same exact comparison of names, for the same reason. Collations are not modelled.
- HasVersion: versions are compared exactly. The source compares the `MEDIUMTEXT` column with a `long` parameter (src/DbUp/Support/MySql/MySqlITableJournal.cs:232-237). MySQL does that as a comparison of doubles, so two distinct versions above 2^53 can compare equal; the model tells them apart.
- StoreMigrationNames, RerunResumes and RerunPlansNothing hold for names compared exactly, as above. Under a case-insensitive collation, their premise `UpgradePlanner.UniqueFileNames` would have to mean "unique up to the collation".
- The journal write exceptions are an input: the set of names the database rejects. Connection failures are not modelled.
- DBMigrationScriptProvider.GetVersion: the prefix length, `Constants.MigrationDateFormat.Length`, is a parameter, because that constant is not part of this model (the samples imply 14). `long.Parse` is modelled for digit-only text up to `long.MaxValue`. Its acceptance of leading or trailing whitespace and a sign is not modelled, so such a prefix is rejected here and accepted by the source.
- DBMigrationScriptProvider.TryGetMigration: file scanning, reading and the `StreamReader`/`AppendLine` loop are not modelled. The file's text is an input, so line-ending normalisation is not modelled. CodeDom compilation, reflection and `AppDomain` lookup are an abstract `compile` function that returns a migration body or an error.
- InMemorySourceFile: `\w` is approximated by ASCII letters, digits and `_`. Strings are sequences of `char`, with no culture rules.
- A migration that is neither a `SchemaMigration` nor a `DataMigration` (an `InvalidCastException` at src/DbUp/Engine/UpgradeEngine.cs:199) cannot be expressed: a migration's kind is one of the two.
- The result of `PerformDBMigration` lists `DBMigrationScript` values. The source casts them to `SqlScript`.
- `Program.cs` (command-line parsing and the step-name mapping) is not modelled.
- Integer widths: versions are unbounded integers. `long` overflow matters only in `GetVersion`, where the bound is explicit.
