/**
 * `DBMigrationScriptProvider`: discovers versioned migrations among the `*.cs` files
 * of a directory. A file is accepted when its name starts with a decimal version and
 * its text mentions a migration; it is then compiled and instantiated, and the
 * provider stamps the version and the bare file name onto the instance.
 *
 * The directory listing and the file contents are inputs, and compiling and
 * instantiating a source is the parameter `compile`.
 */
module DBMigrationScriptProvider {
  import opened Wrappers
  import opened Decimal
  import opened Migrations
  import opened InMemorySourceFile

  /** A file of the scanned directory: full path, bare name, and its text as read. */
  datatype SourceFile = SourceFile(fullName: string, name: string, contents: string)

  /** What the compiled migration class declares: Up text, preferred step, and kind. */
  datatype MigrationBody = MigrationBody(upScript: string, shouldRunAt: ExecutionStep, kind: MigrationKind)

  /**
   * The provider: the directory's files in listing order, the length of the version
   * prefix (the length of the migration date format), and the compiler.
   */
  datatype Provider = Provider(
    files: seq<SourceFile>,
    prefixLength: nat,
    compile: InMemorySourceFile -> Result<MigrationBody, Error>)

  /**
   * `GetVersion`: the first `prefixLength` characters read as a `long`. `Substring` throws
   * on a shorter name, `long.Parse` on an empty or non-numeric prefix and on overflow;
   * every exception becomes "no version".
   */
  function GetVersion(fileName: string, prefixLength: nat): (r: Option<nat>)
    ensures |fileName| < prefixLength ==> r.None?
    ensures r.Some? <==>
      (&& prefixLength <= |fileName| && prefixLength > 0 && AllDigits(fileName[..prefixLength])
       && DecimalValue(fileName[..prefixLength]) <= LongMax)
    ensures r.Some? ==> r.value == DecimalValue(fileName[..prefixLength])
  {
    if |fileName| < prefixLength then None
    else
      var prefix := fileName[..prefixLength];
      if prefix == [] || !AllDigits(prefix) then None
      else if DecimalValue(prefix) > LongMax then None
      else Some(DecimalValue(prefix))
  }

  /** `TryGetMigration`: rejected files give no migration; accepted ones are compiled and stamped. */
  function TryGetMigration(file: SourceFile, prefixLength: nat, compile: InMemorySourceFile -> Result<MigrationBody, Error>): (r: Result<Option<Migration>, Error>)
    ensures r == Ok(None) <==>
      GetVersion(file.name, prefixLength).None? || !IsMigration(InMemorySourceFile(file.fullName, file.contents))
    ensures r.Err? ==> var c := compile(InMemorySourceFile(file.fullName, file.contents)); c.Err? && r.error == c.error
    ensures r.Ok? && r.value.Some? ==>
      && Some(r.value.value.versionId) == GetVersion(file.name, prefixLength)
      && r.value.value.fileName == file.name
      && compile(InMemorySourceFile(file.fullName, file.contents)).Ok?
      && var body := compile(InMemorySourceFile(file.fullName, file.contents)).value;
        r.value.value.upScript == body.upScript && r.value.value.shouldRunAt == body.shouldRunAt && r.value.value.kind == body.kind
  {
    var source := InMemorySourceFile(file.fullName, file.contents);
    var version := GetVersion(file.name, prefixLength);
    if version.None? || !IsMigration(source) then Ok(None)
    else
      match compile(source)
      case Err(e) => Err(e)
      case Ok(body) => Ok(Some(Migration(version.value, file.name, body.upScript, body.shouldRunAt, body.kind)))
  }

  /** The accepted migrations of `files`, in listing order; the first exception aborts the scan. */
  function CollectMigrations(files: seq<SourceFile>, prefixLength: nat, compile: InMemorySourceFile -> Result<MigrationBody, Error>): Result<seq<Migration>, Error>
  {
    if files == [] then Ok([])
    else
      match TryGetMigration(files[0], prefixLength, compile)
      case Err(e) => Err(e)
      case Ok(found) =>
        match CollectMigrations(files[1..], prefixLength, compile)
        case Err(e) => Err(e)
        case Ok(rest) => Ok((if found.Some? then [found.value] else []) + rest)
  }

  /** `r` with `prefix` in front of its value. */
  function PrependOk<T>(prefix: seq<T>, r: Result<seq<T>, Error>): Result<seq<T>, Error> {
    match r
    case Ok(rest) => Ok(prefix + rest)
    case Err(e) => Err(e)
  }

  lemma PrependOkLaws<T>(a: seq<T>, b: seq<T>, r: Result<seq<T>, Error>)
    ensures PrependOk(a, PrependOk(b, r)) == PrependOk(a + b, r)
    ensures PrependOk([], r) == r
  {
    if r.Ok? {
      assert a + (b + r.value) == (a + b) + r.value;
      assert [] + r.value == r.value;
    }
  }

  /** `GetMigrationsFromDirectory`: the `for` loop over the listed files. */
  method GetMigrationsFromDirectory(p: Provider) returns (r: Result<seq<Migration>, Error>)
    ensures r == CollectMigrations(p.files, p.prefixLength, p.compile)
  {
    var migrations: seq<Migration> := [];
    assert p.files[0..] == p.files;
    PrependOkLaws([], [], CollectMigrations(p.files, p.prefixLength, p.compile));
    for i := 0 to |p.files|
      invariant CollectMigrations(p.files, p.prefixLength, p.compile)
                == PrependOk(migrations, CollectMigrations(p.files[i..], p.prefixLength, p.compile))
    {
      assert p.files[i..][0] == p.files[i] && p.files[i..][1..] == p.files[i + 1..];
      var found := TryGetMigration(p.files[i], p.prefixLength, p.compile);
      if found.Err? {
        assert CollectMigrations(p.files[i..], p.prefixLength, p.compile) == Err(found.error);
        return Err(found.error);
      }
      var head := if found.value.Some? then [found.value.value] else [];
      assert CollectMigrations(p.files[i..], p.prefixLength, p.compile)
             == PrependOk(head, CollectMigrations(p.files[i + 1..], p.prefixLength, p.compile));
      PrependOkLaws(migrations, head, CollectMigrations(p.files[i + 1..], p.prefixLength, p.compile));
      migrations := migrations + head;
    }
    assert p.files[|p.files|..] == [] && migrations + [] == migrations;
    r := Ok(migrations);
  }

  /** `GetDBMigrations`. */
  function GetDBMigrations(p: Provider): Result<seq<Migration>, Error> {
    CollectMigrations(p.files, p.prefixLength, p.compile)
  }

  /** `GetScripts` is not implemented: this provider only serves versioned migrations. */
  function GetScripts(p: Provider): (r: Result<seq<SqlScript>, Error>)
    ensures r == Err(NotImplemented)
  {
    Err(NotImplemented)
  }

  // ---- properties ----

  /** Characters after the prefix never affect the version. */
  lemma VersionIgnoresSuffix(a: string, b: string, prefixLength: nat)
    requires prefixLength <= |a| && prefixLength <= |b| && a[..prefixLength] == b[..prefixLength]
    ensures GetVersion(a, prefixLength) == GetVersion(b, prefixLength)
  {
  }

  /** A name that starts with the decimal text of a version reads back as that version. */
  lemma VersionRoundTrip(v: nat, rest: string)
    requires v <= LongMax
    ensures GetVersion(NatToDecimal(v) + rest, |NatToDecimal(v)|) == Some(v)
  {
    var text := NatToDecimal(v);
    assert (text + rest)[..|text|] == text;
    DecimalRoundTrip(v);
  }

  lemma {:induction false} DecimalValueBound(s: string)
    requires AllDigits(s)
    ensures DecimalValue(s) < Pow10(|s|)
  {
    if s != [] {
      DecimalValueBound(s[..|s| - 1]);
    }
  }

  /** A fourteen-digit prefix (the `yyyyMMddHHmmss` format) always parses: it cannot overflow. */
  lemma FourteenDigitPrefixParses(fileName: string)
    requires 14 <= |fileName| && AllDigits(fileName[..14])
    ensures GetVersion(fileName, 14) == Some(DecimalValue(fileName[..14]))
  {
    DecimalValueBound(fileName[..14]);
    assert Pow10(14) == 100000000000000;
  }

  /** Every collected migration comes from an accepted file of the listing, with its version and name. */
  lemma {:induction false} CollectedComeFromAcceptedFiles(files: seq<SourceFile>, prefixLength: nat, compile: InMemorySourceFile -> Result<MigrationBody, Error>)
    requires CollectMigrations(files, prefixLength, compile).Ok?
    ensures forall m :: m in CollectMigrations(files, prefixLength, compile).value ==>
      exists k :: 0 <= k < |files| && TryGetMigration(files[k], prefixLength, compile) == Ok(Some(m))
        && m.fileName == files[k].name && GetVersion(files[k].name, prefixLength) == Some(m.versionId)
  {
    if files != [] {
      CollectedComeFromAcceptedFiles(files[1..], prefixLength, compile);
      forall m | m in CollectMigrations(files, prefixLength, compile).value
        ensures exists k :: 0 <= k < |files| && TryGetMigration(files[k], prefixLength, compile) == Ok(Some(m))
                  && m.fileName == files[k].name && GetVersion(files[k].name, prefixLength) == Some(m.versionId)
      {
        var found := TryGetMigration(files[0], prefixLength, compile).value;
        if found == Some(m) {
          assert TryGetMigration(files[0], prefixLength, compile) == Ok(Some(m));
        } else {
          assert m in CollectMigrations(files[1..], prefixLength, compile).value;
          var k :| 0 <= k < |files[1..]| && TryGetMigration(files[1..][k], prefixLength, compile) == Ok(Some(m))
            && m.fileName == files[1..][k].name && GetVersion(files[1..][k].name, prefixLength) == Some(m.versionId);
          assert files[1..][k] == files[k + 1];
        }
      }
    }
  }

  /** A listing whose every file is rejected yields no migration, whatever the compiler does. */
  lemma {:induction false} AllRejectedYieldsNothing(files: seq<SourceFile>, prefixLength: nat, compile: InMemorySourceFile -> Result<MigrationBody, Error>)
    requires forall k :: 0 <= k < |files| ==> GetVersion(files[k].name, prefixLength).None?
    ensures CollectMigrations(files, prefixLength, compile) == Ok([])
  {
    if files != [] {
      assert forall k :: 0 <= k < |files[1..]| ==> files[1..][k] == files[k + 1];
      AllRejectedYieldsNothing(files[1..], prefixLength, compile);
      assert TryGetMigration(files[0], prefixLength, compile) == Ok(None);
      var none: seq<Migration> := [];
      assert none + none == none;
    }
  }
  /** Conversely, every accepted file's migration is collected, when the scan succeeds. */
  lemma {:induction false} CollectsEveryAcceptedFile(files: seq<SourceFile>, prefixLength: nat, compile: InMemorySourceFile -> Result<MigrationBody, Error>, k: nat, m: Migration)
    requires CollectMigrations(files, prefixLength, compile).Ok?
    requires k < |files| && TryGetMigration(files[k], prefixLength, compile) == Ok(Some(m))
    ensures m in CollectMigrations(files, prefixLength, compile).value
  {
    if k > 0 {
      assert files[1..][k - 1] == files[k];
      CollectsEveryAcceptedFile(files[1..], prefixLength, compile, k - 1, m);
    }
  }

  /**
   * The scan fails exactly when some file's compilation fails, and then with the error
   * of the first such file: every file before it was accepted or rejected cleanly.
   */
  lemma {:induction false} CollectFailsAtFirstError(files: seq<SourceFile>, prefixLength: nat, compile: InMemorySourceFile -> Result<MigrationBody, Error>)
    ensures CollectMigrations(files, prefixLength, compile).Err? <==>
      exists k :: 0 <= k < |files| && TryGetMigration(files[k], prefixLength, compile).Err?
    ensures CollectMigrations(files, prefixLength, compile).Err? ==>
      exists k :: 0 <= k < |files| && TryGetMigration(files[k], prefixLength, compile).Err?
        && (forall j :: 0 <= j < k ==> TryGetMigration(files[j], prefixLength, compile).Ok?)
        && CollectMigrations(files, prefixLength, compile).error == TryGetMigration(files[k], prefixLength, compile).error
  {
    if files != [] {
      CollectFailsAtFirstError(files[1..], prefixLength, compile);
      assert forall j :: 0 <= j < |files[1..]| ==> files[1..][j] == files[j + 1];
      if TryGetMigration(files[0], prefixLength, compile).Err? {
        assert CollectMigrations(files, prefixLength, compile).error == TryGetMigration(files[0], prefixLength, compile).error;
      } else if CollectMigrations(files[1..], prefixLength, compile).Err? {
        var k :| 0 <= k < |files[1..]| && TryGetMigration(files[1..][k], prefixLength, compile).Err?
          && (forall j :: 0 <= j < k ==> TryGetMigration(files[1..][j], prefixLength, compile).Ok?)
          && CollectMigrations(files[1..], prefixLength, compile).error == TryGetMigration(files[1..][k], prefixLength, compile).error;
        assert forall j :: 0 <= j < k + 1 ==> TryGetMigration(files[j], prefixLength, compile).Ok? by {
          forall j | 0 <= j < k + 1 ensures TryGetMigration(files[j], prefixLength, compile).Ok? {
            if j > 0 { assert files[j] == files[1..][j - 1]; }
          }
        }
        assert TryGetMigration(files[k + 1], prefixLength, compile).Err?;
      } else {
        forall k | 0 <= k < |files| ensures TryGetMigration(files[k], prefixLength, compile).Ok? {
          if k > 0 { assert files[k] == files[1..][k - 1]; }
        }
      }
    }
  }
}
