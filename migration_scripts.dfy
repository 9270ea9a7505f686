/**
 * `DBMigrationScript`: one step of a migration plan, and the legacy sort key that
 * orders steps by concatenating decimal strings and comparing them ordinally.
 */
module MigrationScripts {
  import opened Wrappers
  import opened Decimal
  import opened Migrations

  /**
   * A planned step. The name is the migration's file name; the script's own text
   * (the `SqlScript` base) is empty, the Up and Down texts are carried separately.
   * All properties are set once by the constructor and never reassigned.
   */
  datatype DBMigrationScript = DBMigrationScript(
    versionId: int,
    name: string,
    upScript: string,
    downScript: string,
    migrationType: MigrationType,
    dependentSchemaVersionId: Option<int>,
    performType: PerformType)

  /** Fourteen zeros, appended to the version of a step without a dependency. */
  const ZeroSuffix: string := "00000000000000"

  /** `_sortingValue`: dependency then version, or version then fourteen zeros. */
  function SortKey(dependentSchemaVersionId: Option<int>, versionId: int): string {
    match dependentSchemaVersionId
    case Some(dep) => LongToDecimal(dep) + LongToDecimal(versionId)
    case None => LongToDecimal(versionId) + ZeroSuffix
  }

  function SortingValue(s: DBMigrationScript): string {
    SortKey(s.dependentSchemaVersionId, s.versionId)
  }

  function Sign(x: int): int {
    if x < 0 then -1 else if x > 0 then 1 else 0
  }

  /**
   * `string.Compare(a, b, StringComparison.Ordinal)`, reduced to its sign: character
   * codes compared left to right, a proper prefix first.
   */
  function Ordinal(a: string, b: string): (r: int)
    ensures -1 <= r <= 1
  {
    if a == [] && b == [] then 0
    else if a == [] then -1
    else if b == [] then 1
    else if a[0] < b[0] then -1
    else if a[0] > b[0] then 1
    else Ordinal(a[1..], b[1..])
  }

  /** `CompareTo`: ordinal comparison of the two sort keys. */
  function CompareTo(a: DBMigrationScript, b: DBMigrationScript): int {
    Ordinal(SortingValue(a), SortingValue(b))
  }

  // ---- ordinal comparison is a total order on strings ----

  lemma {:induction false} OrdinalReflexive(a: string)
    ensures Ordinal(a, a) == 0
  {
    if a != [] {
      OrdinalReflexive(a[1..]);
    }
  }

  lemma {:induction false} OrdinalAntisymmetric(a: string, b: string)
    ensures Ordinal(a, b) == -Ordinal(b, a)
  {
    if a != [] && b != [] && a[0] == b[0] {
      OrdinalAntisymmetric(a[1..], b[1..]);
    }
  }

  lemma {:induction false} OrdinalZeroIsEqual(a: string, b: string)
    ensures Ordinal(a, b) == 0 <==> a == b
  {
    if a != [] && b != [] && a[0] == b[0] {
      OrdinalZeroIsEqual(a[1..], b[1..]);
      assert a == [a[0]] + a[1..] && b == [b[0]] + b[1..];
    } else if a == b {
      OrdinalReflexive(a);
    }
  }

  lemma {:induction false} OrdinalTransitive(a: string, b: string, c: string)
    requires Ordinal(a, b) <= 0 && Ordinal(b, c) <= 0
    ensures Ordinal(a, c) <= 0
    ensures Ordinal(a, c) == 0 ==> Ordinal(a, b) == 0 && Ordinal(b, c) == 0
  {
    if a != [] && b != [] && c != [] && a[0] == b[0] == c[0] {
      OrdinalTransitive(a[1..], b[1..], c[1..]);
    } else if a == [] && b == [] && c != [] {
    }
  }

  lemma OrdinalStrictTransitive(a: string, b: string, c: string)
    requires Ordinal(a, b) < 0 && Ordinal(b, c) <= 0
    ensures Ordinal(a, c) < 0
  {
    OrdinalTransitive(a, b, c);
  }

  /** A common prefix does not change the comparison. */
  lemma {:induction false} OrdinalCommonPrefix(p: string, x: string, y: string)
    ensures Ordinal(p + x, p + y) == Ordinal(x, y)
  {
    if p != [] {
      assert (p + x)[0] == p[0] == (p + y)[0];
      assert (p + x)[1..] == p[1..] + x && (p + y)[1..] == p[1..] + y;
      OrdinalCommonPrefix(p[1..], x, y);
    } else {
      assert p + x == x && p + y == y;
    }
  }

  /** Two equally long heads that differ decide the comparison, whatever follows. */
  lemma {:induction false} OrdinalDecidedByHead(x1: string, y1: string, x2: string, y2: string)
    requires |x1| == |x2| && x1 != x2
    ensures Ordinal(x1 + y1, x2 + y2) == Ordinal(x1, x2)
  {
    if x1[0] == x2[0] {
      assert x1 == [x1[0]] + x1[1..] && x2 == [x2[0]] + x2[1..];
      assert (x1 + y1)[1..] == x1[1..] + y1 && (x2 + y2)[1..] == x2[1..] + y2;
      OrdinalDecidedByHead(x1[1..], y1, x2[1..], y2);
    }
  }

  lemma OrdinalLastChar(x: string, c: char, y: string, d: char)
    requires |x| == |y|
    ensures Ordinal(x + [c], y + [d]) == if x != y then Ordinal(x, y) else Ordinal([c], [d])
  {
    if x != y {
      OrdinalDecidedByHead(x, [c], y, [d]);
    } else {
      OrdinalCommonPrefix(x, [c], [d]);
    }
  }

  /** Between decimal texts of equal width the ordinal order is the numeric order. */
  lemma {:induction false} EqualWidthOrdinalIsNumeric(a: nat, b: nat)
    requires |NatToDecimal(a)| == |NatToDecimal(b)|
    ensures Ordinal(NatToDecimal(a), NatToDecimal(b)) == Sign(a - b)
    decreases a
  {
    if a < 10 || b < 10 {
      assert a >= 10 ==> |NatToDecimal(a)| >= 2;
      assert b >= 10 ==> |NatToDecimal(b)| >= 2;
    } else {
      var qa, qb, ra, rb := a / 10, b / 10, a % 10, b % 10;
      assert NatToDecimal(a) == NatToDecimal(qa) + [DigitChar(ra)];
      assert NatToDecimal(b) == NatToDecimal(qb) + [DigitChar(rb)];
      EqualWidthOrdinalIsNumeric(qa, qb);
      OrdinalLastChar(NatToDecimal(qa), DigitChar(ra), NatToDecimal(qb), DigitChar(rb));
      OrdinalZeroIsEqual(NatToDecimal(qa), NatToDecimal(qb));
      assert a == 10 * qa + ra && b == 10 * qb + rb;
      if qa < qb {
        assert a < b;
      } else if qa > qb {
        assert a > b;
      }
    }
  }

  // ---- CompareTo ----

  lemma CompareToProperties(a: DBMigrationScript, b: DBMigrationScript, c: DBMigrationScript)
    ensures CompareTo(a, a) == 0
    ensures CompareTo(a, b) == -CompareTo(b, a)
    ensures CompareTo(a, b) <= 0 && CompareTo(b, c) <= 0 ==> CompareTo(a, c) <= 0
    ensures CompareTo(a, b) < 0 && CompareTo(b, c) <= 0 ==> CompareTo(a, c) < 0
  {
    OrdinalReflexive(SortingValue(a));
    OrdinalAntisymmetric(SortingValue(a), SortingValue(b));
    if CompareTo(a, b) <= 0 && CompareTo(b, c) <= 0 {
      OrdinalTransitive(SortingValue(a), SortingValue(b), SortingValue(c));
    }
  }

  /** The key sees only the dependency and the version: name, texts and direction do not count. */
  lemma KeyIgnoresNameAndDirection(a: DBMigrationScript, b: DBMigrationScript)
    requires a.dependentSchemaVersionId == b.dependentSchemaVersionId && a.versionId == b.versionId
    ensures CompareTo(a, b) == 0
  {
    OrdinalReflexive(SortingValue(a));
  }

  predicate IsFourteenDigits(v: int) {
    10000000000000 <= v <= 99999999999999
  }

  /** With 14-digit versions, a data step sorts right after the schema it depends on. */
  lemma DataSortsAfterItsSchema(schema: DBMigrationScript, data: DBMigrationScript)
    requires schema.dependentSchemaVersionId == None
    requires data.dependentSchemaVersionId == Some(schema.versionId)
    requires IsFourteenDigits(schema.versionId) && IsFourteenDigits(data.versionId)
    ensures CompareTo(schema, data) < 0
  {
    var p := NatToDecimal(schema.versionId);
    var u := NatToDecimal(data.versionId);
    FourteenDigits(data.versionId);
    assert SortingValue(schema) == p + ZeroSuffix;
    assert SortingValue(data) == p + u;
    OrdinalCommonPrefix(p, ZeroSuffix, u);
    assert u[0] != '0';
  }

  /** ... and strictly before any step without a dependency whose version is larger. */
  lemma DataSortsBeforeLaterVersions(data: DBMigrationScript, later: DBMigrationScript)
    requires data.dependentSchemaVersionId.Some? && later.dependentSchemaVersionId == None
    requires IsFourteenDigits(data.dependentSchemaVersionId.value) && IsFourteenDigits(data.versionId)
    requires IsFourteenDigits(later.versionId)
    requires data.dependentSchemaVersionId.value < later.versionId
    ensures CompareTo(data, later) < 0
  {
    var v := data.dependentSchemaVersionId.value;
    var w := later.versionId;
    FourteenDigits(v);
    FourteenDigits(w);
    EqualWidthOrdinalIsNumeric(v, w);
    assert NatToDecimal(v) != NatToDecimal(w) by { OrdinalReflexive(NatToDecimal(v)); }
    OrdinalDecidedByHead(NatToDecimal(v), NatToDecimal(data.versionId), NatToDecimal(w), ZeroSuffix);
  }

  /** Steps without a dependency and with versions of equal width compare like their versions. */
  lemma EqualWidthNoDependencyIsNumeric(a: DBMigrationScript, b: DBMigrationScript)
    requires a.dependentSchemaVersionId == None && b.dependentSchemaVersionId == None
    requires a.versionId >= 0 && b.versionId >= 0
    requires |NatToDecimal(a.versionId)| == |NatToDecimal(b.versionId)|
    ensures CompareTo(a, b) == Sign(a.versionId - b.versionId)
  {
    var x, y := NatToDecimal(a.versionId), NatToDecimal(b.versionId);
    EqualWidthOrdinalIsNumeric(a.versionId, b.versionId);
    if x == y {
      OrdinalReflexive(x);
      OrdinalReflexive(x + ZeroSuffix);
    } else {
      OrdinalDecidedByHead(x, ZeroSuffix, y, ZeroSuffix);
    }
  }

  /** With different widths the order is not numeric: version 9 sorts after version 10. */
  lemma NineSortsAfterTen(nine: DBMigrationScript, ten: DBMigrationScript)
    requires nine.dependentSchemaVersionId == None && nine.versionId == 9
    requires ten.dependentSchemaVersionId == None && ten.versionId == 10
    ensures CompareTo(nine, ten) > 0
  {
    assert NatToDecimal(10) == NatToDecimal(1) + [DigitChar(0)];
    assert SortingValue(nine)[0] == '9';
    assert SortingValue(ten)[0] == '1';
  }
}
