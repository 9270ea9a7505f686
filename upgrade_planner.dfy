/**
 * The two LINQ pipelines of `UpgradeEngine` that decide what to run, as functions of
 * what the providers supply and what the journal holds:
 *   - the versioned migration plan: the forward steps not yet journalled, in ascending
 *     sort-key order, then the journalled schema steps above the target version, as
 *     rollbacks in descending order;
 *   - the legacy pending list: the provider scripts whose names are not journalled,
 *     in provider order.
 */
module UpgradePlanner {
  import opened Wrappers
  import opened Migrations
  import opened MigrationScripts
  import opened StableSort
  import opened ScriptProviders

  // ---- collecting from the providers ----

  /** `SelectMany(p => p.GetDBMigrations()).ToList()`: provider order; the first exception aborts. */
  function AllMigrations(providers: seq<ScriptProvider>): (r: Result<seq<Migration>, Error>)
    ensures r.Ok? <==> forall k :: 0 <= k < |providers| ==> GetDBMigrations(providers[k]).Ok?
  {
    if providers == [] then Ok([])
    else
      assert forall k :: 0 <= k < |providers[1..]| ==> providers[1..][k] == providers[k + 1];
      match GetDBMigrations(providers[0])
      case Err(e) => Err(e)
      case Ok(ms) =>
        match AllMigrations(providers[1..])
        case Err(e) => Err(e)
        case Ok(rest) => Ok(ms + rest)
  }

  /** `SelectMany(p => p.GetScripts(...))`, enumerated: provider order; the first exception aborts. */
  function AllScripts(providers: seq<ScriptProvider>): (r: Result<seq<SqlScript>, Error>)
    ensures r.Ok? <==> forall k :: 0 <= k < |providers| ==> GetScripts(providers[k]).Ok?
  {
    if providers == [] then Ok([])
    else
      assert forall k :: 0 <= k < |providers[1..]| ==> providers[1..][k] == providers[k + 1];
      match GetScripts(providers[0])
      case Err(e) => Err(e)
      case Ok(ss) =>
        match AllScripts(providers[1..])
        case Err(e) => Err(e)
        case Ok(rest) => Ok(ss + rest)
  }

  // ---- the step filter ----

  function KeepBeforeCode(ms: seq<Migration>): (r: seq<Migration>)
    ensures forall m :: m in r <==> m in ms && m.shouldRunAt == BeforeCode
  {
    if ms == [] then []
    else if ms[0].shouldRunAt == BeforeCode then [ms[0]] + KeepBeforeCode(ms[1..])
    else KeepBeforeCode(ms[1..])
  }

  /**
   * At the BeforeCode step only migrations that ask for BeforeCode are kept (not
   * NoPreference ones); at any other step nothing is filtered.
   */
  function StepFilter(ms: seq<Migration>, step: ExecutionStep): (r: seq<Migration>)
    ensures step != BeforeCode ==> r == ms
    ensures step == BeforeCode ==> forall m :: m in r <==> m in ms && m.shouldRunAt == BeforeCode
  {
    if step == BeforeCode then KeepBeforeCode(ms) else ms
  }

  // ---- the two lists ----

  /** The forward step of a migration: a data step carries its dependency, a schema step its rollback text. */
  function UpScript(m: Migration): (s: DBMigrationScript)
    ensures s.versionId == m.versionId && s.name == m.fileName && s.upScript == m.upScript && s.performType == Up
    ensures s.migrationType == Data <==> m.kind.DataMigration?
    ensures s.dependentSchemaVersionId.Some? <==> m.kind.DataMigration?
  {
    match m.kind
    case DataMigration(dep) => DBMigrationScript(m.versionId, m.fileName, m.upScript, "", Data, Some(dep), Up)
    case SchemaMigration(down) => DBMigrationScript(m.versionId, m.fileName, m.upScript, down, Schema, None, Up)
  }

  /** The rollback step of a schema migration. */
  function DownScript(m: Migration): (s: DBMigrationScript)
    requires m.kind.SchemaMigration?
    ensures s.versionId == m.versionId && s.name == m.fileName && s.downScript == m.kind.downScript
    ensures s.migrationType == Schema && s.dependentSchemaVersionId.None? && s.performType == Down
  {
    DBMigrationScript(m.versionId, m.fileName, m.upScript, m.kind.downScript, Schema, None, Down)
  }

  /** Migrations whose file name is not journalled and whose version is at most the target, as Up steps. */
  function ForwardCandidates(ms: seq<Migration>, records: seq<Record>, toVersionId: int): (r: seq<DBMigrationScript>)
    ensures forall s :: s in r <==>
      exists m :: m in ms && NotJournalled(records, m.fileName) && m.versionId <= toVersionId && s == UpScript(m)
    ensures |r| <= |ms|
  {
    if ms == [] then []
    else
      var rest := ForwardCandidates(ms[1..], records, toVersionId);
      assert forall m :: m in ms <==> m == ms[0] || m in ms[1..];
      if NotJournalled(records, ms[0].fileName) && ms[0].versionId <= toVersionId then [UpScript(ms[0])] + rest
      else rest
  }

  /** Schema migrations whose file name is journalled and whose version is above the target, as Down steps. */
  function RollbackCandidates(ms: seq<Migration>, records: seq<Record>, toVersionId: int): (r: seq<DBMigrationScript>)
    ensures forall s :: s in r <==>
      exists m :: m in ms && m.kind.SchemaMigration? && !NotJournalled(records, m.fileName) && m.versionId > toVersionId
        && s == DownScript(m)
    ensures |r| <= |ms|
  {
    if ms == [] then []
    else
      var rest := RollbackCandidates(ms[1..], records, toVersionId);
      assert forall m :: m in ms <==> m == ms[0] || m in ms[1..];
      if ms[0].kind.SchemaMigration? && !NotJournalled(records, ms[0].fileName) && ms[0].versionId > toVersionId
      then [DownScript(ms[0])] + rest
      else rest
  }

  /** `OrderBy(s => s)`: a step goes before another whose key it compares below. */
  predicate Ascending(a: DBMigrationScript, b: DBMigrationScript) {
    CompareTo(a, b) < 0
  }

  /** `OrderByDescending(s => s)`. */
  predicate Descending(a: DBMigrationScript, b: DBMigrationScript) {
    CompareTo(a, b) > 0
  }

  function Forward(ms: seq<Migration>, records: seq<Record>, toVersionId: int): seq<DBMigrationScript> {
    Sort(ForwardCandidates(ms, records, toVersionId), Ascending)
  }

  function Rollback(ms: seq<Migration>, records: seq<Record>, toVersionId: int): seq<DBMigrationScript> {
    Sort(RollbackCandidates(ms, records, toVersionId), Descending)
  }

  /** `GetDBMigrationsToExecuteInsideOperation`, once the migrations and the journal records are known. */
  function Plan(all: seq<Migration>, records: seq<Record>, toVersionId: int, step: ExecutionStep): seq<DBMigrationScript> {
    var ms := StepFilter(all, step);
    Forward(ms, records, toVersionId) + Rollback(ms, records, toVersionId)
  }

  /** The legacy filter: provider scripts whose name no journal record carries, in order. */
  function PendingScripts(scripts: seq<SqlScript>, records: seq<Record>): (r: seq<SqlScript>)
    ensures forall s :: s in r <==> s in scripts && NotJournalled(records, s.name)
    ensures |r| <= |scripts|
  {
    if scripts == [] then []
    else
      var rest := PendingScripts(scripts[1..], records);
      assert forall s :: s in scripts <==> s == scripts[0] || s in scripts[1..];
      if NotJournalled(records, scripts[0].name) then [scripts[0]] + rest else rest
  }

  // ---- properties of the plan ----

  /** Both sort orders are strict weak orders, so the sort is well defined and stable. */
  lemma SortOrdersAreStrictWeak()
    ensures StrictWeakOrder(Ascending) && StrictWeakOrder(Descending)
  {
    AscendingIsStrictWeak();
    DescendingIsStrictWeak();
  }

  lemma AscendingIsStrictWeak()
    ensures StrictWeakOrder(Ascending)
  {
    forall x, y, z
      ensures !Ascending(x, x)
      ensures Ascending(x, y) && Ascending(y, z) ==> Ascending(x, z)
      ensures !Ascending(x, y) && !Ascending(y, z) ==> !Ascending(x, z)
    {
      CompareToProperties(x, y, z);
      CompareToProperties(z, y, x);
      CompareToProperties(x, z, y);
    }
  }

  lemma DescendingIsStrictWeak()
    ensures StrictWeakOrder(Descending)
  {
    forall x, y, z
      ensures !Descending(x, x)
      ensures Descending(x, y) && Descending(y, z) ==> Descending(x, z)
      ensures !Descending(x, y) && !Descending(y, z) ==> !Descending(x, z)
    {
      CompareToProperties(x, y, z);
      CompareToProperties(z, y, x);
      CompareToProperties(x, z, y);
    }
  }

  /** The forward list: exactly the forward candidates, in non-decreasing key order. */
  lemma ForwardIsSortedPermutation(ms: seq<Migration>, records: seq<Record>, toVersionId: int)
    ensures var f := Forward(ms, records, toVersionId);
      && multiset(f) == multiset(ForwardCandidates(ms, records, toVersionId))
      && |f| == |ForwardCandidates(ms, records, toVersionId)|
      && forall i, j :: 0 <= i < j < |f| ==> CompareTo(f[i], f[j]) <= 0
  {
    SortOrdersAreStrictWeak();
    var f := Forward(ms, records, toVersionId);
    SortSorted(ForwardCandidates(ms, records, toVersionId), Ascending);
    assert |multiset(f)| == |multiset(ForwardCandidates(ms, records, toVersionId))|;
    forall i, j | 0 <= i < j < |f|
      ensures CompareTo(f[i], f[j]) <= 0
    {
      assert !Ascending(f[j], f[i]);
      CompareToProperties(f[i], f[j], f[j]);
    }
  }

  /** The rollback list: exactly the rollback candidates, in non-increasing key order. */
  lemma RollbackIsSortedPermutation(ms: seq<Migration>, records: seq<Record>, toVersionId: int)
    ensures var b := Rollback(ms, records, toVersionId);
      && multiset(b) == multiset(RollbackCandidates(ms, records, toVersionId))
      && |b| == |RollbackCandidates(ms, records, toVersionId)|
      && forall i, j :: 0 <= i < j < |b| ==> CompareTo(b[i], b[j]) >= 0
  {
    SortOrdersAreStrictWeak();
    var b := Rollback(ms, records, toVersionId);
    SortSorted(RollbackCandidates(ms, records, toVersionId), Descending);
    assert |multiset(b)| == |multiset(RollbackCandidates(ms, records, toVersionId))|;
    forall i, j | 0 <= i < j < |b|
      ensures CompareTo(b[i], b[j]) >= 0
    {
      assert !Descending(b[j], b[i]);
      CompareToProperties(b[i], b[j], b[j]);
    }
  }

  /** The steps sharing one sort key. */
  function SameKey(key: string): DBMigrationScript -> bool {
    s => SortingValue(s) == key
  }

  /** Steps with equal keys keep the order the migrations were supplied in (`OrderBy` is stable). */
  lemma PlanIsStable(ms: seq<Migration>, records: seq<Record>, toVersionId: int, key: string)
    ensures Filter(Forward(ms, records, toVersionId), SameKey(key)) == Filter(ForwardCandidates(ms, records, toVersionId), SameKey(key))
    ensures Filter(Rollback(ms, records, toVersionId), SameKey(key)) == Filter(RollbackCandidates(ms, records, toVersionId), SameKey(key))
  {
    SortOrdersAreStrictWeak();
    OrdinalReflexive(key);
    assert Unordered(SameKey(key), Ascending) && Unordered(SameKey(key), Descending);
    SortStable(ForwardCandidates(ms, records, toVersionId), Ascending, SameKey(key));
    SortStable(RollbackCandidates(ms, records, toVersionId), Descending, SameKey(key));
  }

  lemma ForwardStepsAreUp(ms: seq<Migration>, records: seq<Record>, toVersionId: int)
    ensures var f := Forward(ms, records, toVersionId);
      forall i :: 0 <= i < |f| ==> f[i] in ForwardCandidates(ms, records, toVersionId) && f[i].performType == Up
  {
    var f := Forward(ms, records, toVersionId);
    ForwardIsSortedPermutation(ms, records, toVersionId);
    forall i | 0 <= i < |f|
      ensures f[i] in ForwardCandidates(ms, records, toVersionId) && f[i].performType == Up
    {
      assert f[i] in multiset(f);
      assert f[i] in ForwardCandidates(ms, records, toVersionId);
      var m :| m in ms && NotJournalled(records, m.fileName) && m.versionId <= toVersionId && f[i] == UpScript(m);
    }
  }

  lemma RollbackStepsAreDown(ms: seq<Migration>, records: seq<Record>, toVersionId: int)
    ensures var b := Rollback(ms, records, toVersionId);
      forall i :: 0 <= i < |b| ==>
        && b[i] in RollbackCandidates(ms, records, toVersionId)
        && b[i].performType == Down && b[i].migrationType == Schema && b[i].versionId > toVersionId
  {
    var b := Rollback(ms, records, toVersionId);
    RollbackIsSortedPermutation(ms, records, toVersionId);
    forall i | 0 <= i < |b|
      ensures b[i] in RollbackCandidates(ms, records, toVersionId)
        && b[i].performType == Down && b[i].migrationType == Schema && b[i].versionId > toVersionId
    {
      assert b[i] in multiset(b);
      assert b[i] in RollbackCandidates(ms, records, toVersionId);
      var m :| m in ms && m.kind.SchemaMigration? && !NotJournalled(records, m.fileName) && m.versionId > toVersionId
        && b[i] == DownScript(m);
    }
  }

  /**
   * The plan is the forward list then the rollback list: every step before the split is
   * a forward candidate (an Up step), every step after it a rollback candidate (a Down
   * step of a schema migration above the target).
   */
  lemma PlanUpsThenDowns(all: seq<Migration>, records: seq<Record>, toVersionId: int, step: ExecutionStep)
    ensures var ms := StepFilter(all, step);
      var plan := Plan(all, records, toVersionId, step);
      var n := |ForwardCandidates(ms, records, toVersionId)|;
      && |plan| == n + |RollbackCandidates(ms, records, toVersionId)|
      && (forall i :: 0 <= i < n ==> plan[i] in ForwardCandidates(ms, records, toVersionId) && plan[i].performType == Up)
      && (forall i :: n <= i < |plan| ==>
            && plan[i] in RollbackCandidates(ms, records, toVersionId)
            && plan[i].performType == Down && plan[i].migrationType == Schema && plan[i].versionId > toVersionId)
  {
    var ms := StepFilter(all, step);
    var f, b := Forward(ms, records, toVersionId), Rollback(ms, records, toVersionId);
    ForwardIsSortedPermutation(ms, records, toVersionId);
    RollbackIsSortedPermutation(ms, records, toVersionId);
    ForwardStepsAreUp(ms, records, toVersionId);
    RollbackStepsAreDown(ms, records, toVersionId);
    UpsThenDowns(f, b, ForwardCandidates(ms, records, toVersionId), RollbackCandidates(ms, records, toVersionId), toVersionId);
  }

  /** The concatenation step of `PlanUpsThenDowns`, over plain sequences. */
  lemma UpsThenDowns(f: seq<DBMigrationScript>, b: seq<DBMigrationScript>, fc: seq<DBMigrationScript>, rc: seq<DBMigrationScript>, toVersionId: int)
    requires forall i :: 0 <= i < |f| ==> f[i] in fc && f[i].performType == Up
    requires forall i :: 0 <= i < |b| ==>
      && b[i] in rc && b[i].performType == Down && b[i].migrationType == Schema && b[i].versionId > toVersionId
    ensures forall i :: 0 <= i < |f| ==> (f + b)[i] in fc && (f + b)[i].performType == Up
    ensures forall i :: |f| <= i < |f + b| ==>
      && (f + b)[i] in rc && (f + b)[i].performType == Down
      && (f + b)[i].migrationType == Schema && (f + b)[i].versionId > toVersionId
  {
    forall i | |f| <= i < |f + b|
      ensures (f + b)[i] == b[i - |f|]
    {
    }
  }

  /** At the BeforeCode step every planned step comes from a migration that asks for BeforeCode. */
  lemma BeforeCodePlansOnlyBeforeCode(all: seq<Migration>, records: seq<Record>, toVersionId: int)
    ensures forall s :: s in Plan(all, records, toVersionId, BeforeCode) ==>
      exists m :: m in all && m.shouldRunAt == BeforeCode && s.name == m.fileName && s.versionId == m.versionId
  {
    var ms := StepFilter(all, BeforeCode);
    var plan := Plan(all, records, toVersionId, BeforeCode);
    PlanUpsThenDowns(all, records, toVersionId, BeforeCode);
    forall s | s in plan
      ensures exists m :: m in all && m.shouldRunAt == BeforeCode && s.name == m.fileName && s.versionId == m.versionId
    {
      var i :| 0 <= i < |plan| && plan[i] == s;
      if i < |ForwardCandidates(ms, records, toVersionId)| {
        assert s in ForwardCandidates(ms, records, toVersionId);
        var m :| m in ms && NotJournalled(records, m.fileName) && m.versionId <= toVersionId && s == UpScript(m);
      } else {
        assert s in RollbackCandidates(ms, records, toVersionId);
        var m :| m in ms && m.kind.SchemaMigration? && !NotJournalled(records, m.fileName)
          && m.versionId > toVersionId && s == DownScript(m);
      }
    }
  }

  /**
   * A NoPreference migration is never planned at the BeforeCode step, whatever else is
   * loaded, unless a BeforeCode migration carries the same file name.
   */
  lemma NoPreferenceExcludedBeforeCode(all: seq<Migration>, records: seq<Record>, toVersionId: int, m: Migration)
    requires m in all && m.shouldRunAt == NoPreference
    requires forall b :: b in all && b.shouldRunAt == BeforeCode ==> b.fileName != m.fileName
    ensures forall s :: s in Plan(all, records, toVersionId, BeforeCode) ==> s.name != m.fileName
  {
    BeforeCodePlansOnlyBeforeCode(all, records, toVersionId);
  }

  /** In particular, when nothing asks for BeforeCode that step plans nothing. */
  lemma NoBeforeCodePlansNothing(all: seq<Migration>, records: seq<Record>, toVersionId: int)
    requires forall m :: m in all ==> m.shouldRunAt == NoPreference
    ensures Plan(all, records, toVersionId, BeforeCode) == []
  {
    BeforeCodePlansOnlyBeforeCode(all, records, toVersionId);
  }

  /** No two loaded migrations share a file name. */
  predicate UniqueFileNames(ms: seq<Migration>) {
    forall a, b :: a in ms && b in ms && a.fileName == b.fileName ==> a == b
  }

  /** A step is planned exactly when it is a forward or a rollback candidate of some kept migration. */
  lemma PlanMembers(all: seq<Migration>, records: seq<Record>, toVersionId: int, step: ExecutionStep, s: DBMigrationScript)
    ensures var ms := StepFilter(all, step);
      s in Plan(all, records, toVersionId, step) <==>
        s in ForwardCandidates(ms, records, toVersionId) || s in RollbackCandidates(ms, records, toVersionId)
  {
    var ms := StepFilter(all, step);
    var f, b := Forward(ms, records, toVersionId), Rollback(ms, records, toVersionId);
    assert s in f <==> s in multiset(f);
    assert s in b <==> s in multiset(b);
  }

  /**
   * With unique file names, the plan holds under a migration's file name only that
   * migration's own step: its Up step when it is a forward candidate, its Down step when
   * it is a rollback candidate, and nothing when it is neither.
   */
  lemma PlanStepsOfMigration(all: seq<Migration>, records: seq<Record>, toVersionId: int, step: ExecutionStep, m: Migration)
    requires UniqueFileNames(all) && m in StepFilter(all, step)
    ensures var plan := Plan(all, records, toVersionId, step);
      && (NotJournalled(records, m.fileName) && m.versionId <= toVersionId ==>
            UpScript(m) in plan && forall s :: s in plan && s.name == m.fileName ==> s.performType == Up)
      && (m.kind.SchemaMigration? && !NotJournalled(records, m.fileName) && m.versionId > toVersionId ==>
            DownScript(m) in plan && forall s :: s in plan && s.name == m.fileName ==> s.performType == Down)
      && (!(NotJournalled(records, m.fileName) && m.versionId <= toVersionId)
          && !(m.kind.SchemaMigration? && !NotJournalled(records, m.fileName) && m.versionId > toVersionId) ==>
            forall s :: s in plan ==> s.name != m.fileName)
  {
    var ms := StepFilter(all, step);
    var plan := Plan(all, records, toVersionId, step);
    PlanMembers(all, records, toVersionId, step, UpScript(m));
    if m.kind.SchemaMigration? {
      PlanMembers(all, records, toVersionId, step, DownScript(m));
    }
    forall s | s in plan && s.name == m.fileName
      ensures (NotJournalled(records, m.fileName) && m.versionId <= toVersionId && s.performType == Up)
        || (m.kind.SchemaMigration? && !NotJournalled(records, m.fileName) && m.versionId > toVersionId && s.performType == Down)
    {
      PlanMembers(all, records, toVersionId, step, s);
      if s in ForwardCandidates(ms, records, toVersionId) {
        var m' :| m' in ms && NotJournalled(records, m'.fileName) && m'.versionId <= toVersionId && s == UpScript(m');
        assert m' in all;
      } else {
        var m' :| m' in ms && m'.kind.SchemaMigration? && !NotJournalled(records, m'.fileName) && m'.versionId > toVersionId
          && s == DownScript(m');
        assert m' in all;
      }
    }
  }

  /** The forward filter distributes over concatenation, so candidates keep provider order. */
  lemma {:induction false} ForwardCandidatesAppend(a: seq<Migration>, b: seq<Migration>, records: seq<Record>, toVersionId: int)
    ensures ForwardCandidates(a + b, records, toVersionId)
      == ForwardCandidates(a, records, toVersionId) + ForwardCandidates(b, records, toVersionId)
  {
    if a != [] {
      assert (a + b)[0] == a[0] && (a + b)[1..] == a[1..] + b;
      ForwardCandidatesAppend(a[1..], b, records, toVersionId);
    } else {
      assert a + b == b;
    }
  }

  /** The rollback filter distributes over concatenation as well. */
  lemma {:induction false} RollbackCandidatesAppend(a: seq<Migration>, b: seq<Migration>, records: seq<Record>, toVersionId: int)
    ensures RollbackCandidates(a + b, records, toVersionId)
      == RollbackCandidates(a, records, toVersionId) + RollbackCandidates(b, records, toVersionId)
  {
    if a != [] {
      assert (a + b)[0] == a[0] && (a + b)[1..] == a[1..] + b;
      RollbackCandidatesAppend(a[1..], b, records, toVersionId);
    } else {
      assert a + b == b;
    }
  }

  // ---- properties of the legacy pending list ----

  /** The filter distributes over concatenation, so it keeps provider order. */
  lemma {:induction false} PendingAppend(a: seq<SqlScript>, b: seq<SqlScript>, records: seq<Record>)
    ensures PendingScripts(a + b, records) == PendingScripts(a, records) + PendingScripts(b, records)
  {
    if a != [] {
      assert (a + b)[0] == a[0] && (a + b)[1..] == a[1..] + b;
      PendingAppend(a[1..], b, records);
    } else {
      assert a + b == b;
    }
  }

  /** With nothing journalled under those names, every script is pending, in order. */
  lemma {:induction false} NothingJournalledKeepsAll(scripts: seq<SqlScript>, records: seq<Record>)
    requires forall s :: s in scripts ==> NotJournalled(records, s.name)
    ensures PendingScripts(scripts, records) == scripts
  {
    if scripts != [] {
      assert scripts[0] in scripts;
      assert forall s :: s in scripts[1..] ==> s in scripts;
      NothingJournalledKeepsAll(scripts[1..], records);
      assert scripts == [scripts[0]] + scripts[1..];
    }
  }
}
