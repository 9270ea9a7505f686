/**
 * `InMemorySourceFile`: a migration's source text, with the two regular-expression
 * queries the directory provider asks of it. The regular expressions are stated here
 * by their meaning (leftmost match, greedy runs) and computed by plain searches.
 * `\w` is taken as ASCII letters, digits and underscore.
 */
module InMemorySourceFile {
  import opened Wrappers

  /** The constructor stores both arguments unchanged; the properties have private setters. */
  datatype InMemorySourceFile = InMemorySourceFile(fileName: string, sourceCode: string)

  const MigrationWord: string := "Migration"
  const ClassKeyword: string := "class "
  const NamespaceKeyword: string := "namespace "

  /** `\w`, restricted to ASCII. */
  predicate IsWordChar(c: char) {
    ('a' <= c <= 'z') || ('A' <= c <= 'Z') || ('0' <= c <= '9') || c == '_'
  }

  /** `[a-zA-Z0-9.-[{]]`: letters, digits and the dot (the subtracted `{` is not among them). */
  predicate IsNamespaceChar(c: char) {
    ('a' <= c <= 'z') || ('A' <= c <= 'Z') || ('0' <= c <= '9') || c == '.'
  }

  /** `p` occurs in `s` starting at index `i`. */
  predicate OccursAt(s: string, p: string, i: nat) {
    i + |p| <= |s| && s[i..i + |p|] == p
  }

  /** The first index at or after `from` where `p` occurs. */
  function IndexFrom(s: string, p: string, from: nat): (r: Option<nat>)
    decreases |s| - from
    ensures r.Some? ==> from <= r.value && OccursAt(s, p, r.value)
    ensures forall i: nat :: from <= i && (r.None? || i < r.value) ==> !OccursAt(s, p, i)
  {
    if from + |p| > |s| then None
    else if s[from..from + |p|] == p then Some(from)
    else IndexFrom(s, p, from + 1)
  }

  /** The first occurrence of `p` in `s`. */
  function IndexOf(s: string, p: string): (r: Option<nat>)
    ensures r.Some? ==> OccursAt(s, p, r.value) && forall i: nat :: i < r.value ==> !OccursAt(s, p, i)
    ensures r.None? <==> forall i: nat :: !OccursAt(s, p, i)
  {
    IndexFrom(s, p, 0)
  }

  /** Where a greedy run of characters of the class `inClass` starting at `start` ends. */
  function RunEnd(s: string, start: nat, inClass: char -> bool): (e: nat)
    requires start <= |s|
    decreases |s| - start
    ensures start <= e <= |s|
    ensures forall k :: start <= k < e ==> inClass(s[k])
    ensures e == |s| || !inClass(s[e])
  {
    if start == |s| || !inClass(s[start]) then start else RunEnd(s, start + 1, inClass)
  }

  /** The greedy run itself. */
  function Run(s: string, start: nat, inClass: char -> bool): string
    requires start <= |s|
  {
    s[start..RunEnd(s, start, inClass)]
  }

  /** What `\w*Migration` matching somewhere in `s` means: some run of word characters, then "Migration". */
  ghost predicate MatchesMigrationPattern(s: string) {
    exists i: nat, j: nat :: i <= j && WordRunBetween(s, i, j) && OccursAt(s, MigrationWord, j)
  }

  /** Every character of `s` from `i` up to `j` is a word character. */
  predicate WordRunBetween(s: string, i: nat, j: nat) {
    j <= |s| && forall k :: i <= k < j ==> IsWordChar(s[k])
  }

  /** `GetIsMigration`. */
  function IsMigration(f: InMemorySourceFile): bool {
    IndexOf(f.sourceCode, MigrationWord).Some?
  }

  /** `GetTypeName`: `namespace.class` when both keywords occur, else the empty string. */
  function TypeName(f: InMemorySourceFile): string {
    var s := f.sourceCode;
    match (IndexOf(s, NamespaceKeyword), IndexOf(s, ClassKeyword))
    case (Some(n), Some(c)) =>
      Run(s, n + |NamespaceKeyword|, IsNamespaceChar) + "." + Run(s, c + |ClassKeyword|, IsWordChar)
    case _ => ""
  }

  // ---- properties ----

  /** Because `\w*` may match nothing, the pattern matches iff "Migration" occurs at all. */
  lemma IsMigrationIffContainsWord(f: InMemorySourceFile)
    ensures IsMigration(f) <==> MatchesMigrationPattern(f.sourceCode)
    ensures IsMigration(f) <==> exists j: nat :: OccursAt(f.sourceCode, MigrationWord, j)
  {
    var s := f.sourceCode;
    if IsMigration(f) {
      var j := IndexOf(s, MigrationWord).value;
      assert WordRunBetween(s, j, j) && OccursAt(s, MigrationWord, j);
    }
    if MatchesMigrationPattern(s) {
      var i: nat, j: nat :| i <= j && WordRunBetween(s, i, j) && OccursAt(s, MigrationWord, j);
      assert IndexOf(s, MigrationWord).Some?;
    }
  }

  /** The type name is empty exactly when one of the two keywords is missing. */
  lemma TypeNameEmptyUnlessBoth(f: InMemorySourceFile)
    ensures TypeName(f) == "" <==>
      (forall i: nat :: !OccursAt(f.sourceCode, NamespaceKeyword, i)) || (forall i: nat :: !OccursAt(f.sourceCode, ClassKeyword, i))
  {
    var s := f.sourceCode;
    match (IndexOf(s, NamespaceKeyword), IndexOf(s, ClassKeyword))
    case (Some(n), Some(c)) =>
      var t := TypeName(f);
      var ns := Run(s, n + |NamespaceKeyword|, IsNamespaceChar);
      assert t == ns + "." + Run(s, c + |ClassKeyword|, IsWordChar);
      assert t[|ns|] == '.';
    case _ =>
  }

  /**
   * When the first "namespace " is at `n` and the first "class " at `c`, the type name is
   * the greedy run of namespace characters after the one, a dot, and the greedy run of
   * word characters after the other.
   */
  lemma TypeNameParts(f: InMemorySourceFile, n: nat, c: nat)
    requires OccursAt(f.sourceCode, NamespaceKeyword, n) && forall i: nat :: i < n ==> !OccursAt(f.sourceCode, NamespaceKeyword, i)
    requires OccursAt(f.sourceCode, ClassKeyword, c) && forall i: nat :: i < c ==> !OccursAt(f.sourceCode, ClassKeyword, i)
    ensures var s := f.sourceCode;
      var ne := RunEnd(s, n + |NamespaceKeyword|, IsNamespaceChar);
      var ce := RunEnd(s, c + |ClassKeyword|, IsWordChar);
      && TypeName(f) == s[n + |NamespaceKeyword|..ne] + "." + s[c + |ClassKeyword|..ce]
      && (forall k :: n + |NamespaceKeyword| <= k < ne ==> IsNamespaceChar(s[k]))
      && (ne == |s| || !IsNamespaceChar(s[ne]))
      && (forall k :: c + |ClassKeyword| <= k < ce ==> IsWordChar(s[k]))
      && (ce == |s| || !IsWordChar(s[ce]))
  {
    var s := f.sourceCode;
    var on := IndexOf(s, NamespaceKeyword);
    var oc := IndexOf(s, ClassKeyword);
    assert on.Some? && on.value == n;
    assert oc.Some? && oc.value == c;
  }
}
