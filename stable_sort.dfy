/**
 * The stable sort behind LINQ's `OrderBy` and `OrderByDescending`: elements that
 * compare equal keep their input order. `before(x, y)` says that x must come
 * strictly before y.
 */
module StableSort {

  /** `before` is a strict order: irreflexive and transitive. */
  ghost predicate StrictOrder<T(!new)>(before: (T, T) -> bool) {
    && (forall x :: !before(x, x))
    && (forall x, y, z :: before(x, y) && before(y, z) ==> before(x, z))
  }

  /** A strict weak order: moreover, "need not precede" is transitive. */
  ghost predicate StrictWeakOrder<T(!new)>(before: (T, T) -> bool) {
    && StrictOrder(before)
    && (forall x, y, z :: !before(x, y) && !before(y, z) ==> !before(x, z))
  }

  /** No element of the class `same` must precede another one of it. */
  ghost predicate Unordered<T(!new)>(same: T -> bool, before: (T, T) -> bool) {
    forall x, y :: same(x) && same(y) ==> !before(x, y)
  }

  /** No later element must come strictly before an earlier one. */
  ghost predicate Sorted<T>(s: seq<T>, before: (T, T) -> bool) {
    forall i, j :: 0 <= i < j < |s| ==> !before(s[j], s[i])
  }

  /** Puts x after every element it need not precede. */
  function Insert<T>(x: T, s: seq<T>, before: (T, T) -> bool): (r: seq<T>)
    ensures multiset(r) == multiset(s) + multiset{x}
  {
    if s == [] then [x]
    else if before(x, s[0]) then [x] + s
    else
      assert s == [s[0]] + s[1..];
      [s[0]] + Insert(x, s[1..], before)
  }

  /** Inserts the elements one by one, in input order. */
  function Sort<T>(s: seq<T>, before: (T, T) -> bool): (r: seq<T>)
    ensures multiset(r) == multiset(s)
  {
    if s == [] then []
    else
      assert s == s[..|s| - 1] + [s[|s| - 1]];
      Insert(s[|s| - 1], Sort(s[..|s| - 1], before), before)
  }

  lemma {:induction false} InsertSorted<T(!new)>(x: T, s: seq<T>, before: (T, T) -> bool)
    requires StrictOrder(before) && Sorted(s, before)
    ensures Sorted(Insert(x, s, before), before)
  {
    if s != [] && before(x, s[0]) {
      var r := Insert(x, s, before);
      assert r == [x] + s;
      forall j | 1 <= j < |r|
        ensures !before(r[j], x)
      {
        if j > 1 { assert !before(s[j - 1], s[0]); }
      }
    } else if s != [] {
      InsertSorted(x, s[1..], before);
      var r := Insert(x, s, before);
      var t := Insert(x, s[1..], before);
      assert r == [s[0]] + t;
      forall j | 1 <= j < |r|
        ensures !before(r[j], s[0])
      {
        assert r[j] in multiset(t);
        assert r[j] == x || r[j] in multiset(s[1..]);
        if r[j] != x {
          var k :| 0 <= k < |s[1..]| && s[1..][k] == r[j];
          assert s[k + 1] == r[j];
        }
      }
    }
  }

  /** The output is sorted and a permutation of the input. */
  lemma {:induction false} SortSorted<T(!new)>(s: seq<T>, before: (T, T) -> bool)
    requires StrictOrder(before)
    ensures Sorted(Sort(s, before), before)
    ensures multiset(Sort(s, before)) == multiset(s)
  {
    if s != [] {
      SortSorted(s[..|s| - 1], before);
      InsertSorted(s[|s| - 1], Sort(s[..|s| - 1], before), before);
    }
  }

  /** The elements satisfying p, in order. */
  function Filter<T(==,!new)>(s: seq<T>, p: T -> bool): (r: seq<T>)
    ensures |r| <= |s|
    ensures forall x :: x in r <==> x in s && p(x)
  {
    if s == [] then []
    else if p(s[0]) then [s[0]] + Filter(s[1..], p)
    else Filter(s[1..], p)
  }

  lemma {:induction false} InsertStable<T(!new)>(x: T, s: seq<T>, before: (T, T) -> bool, same: T -> bool)
    requires StrictWeakOrder(before) && Unordered(same, before) && Sorted(s, before)
    ensures Filter(Insert(x, s, before), same) == Filter(s, same) + (if same(x) then [x] else [])
  {
    if s == [] {
    } else if before(x, s[0]) {
      if same(x) {
        forall e | e in s
          ensures !same(e)
        {
          var j :| 0 <= j < |s| && s[j] == e;
          assert same(e) ==> !before(x, e);
          assert !before(e, s[0]) by {
            if j > 0 { assert !before(s[j], s[0]); }
          }
        }
        NoneSame(s, same);
      }
    } else {
      InsertSorted(x, s, before);
      assert Sorted(s[1..], before);
      InsertStable(x, s[1..], before, same);
    }
  }

  lemma {:induction false} NoneSame<T(!new)>(s: seq<T>, same: T -> bool)
    requires forall e :: e in s ==> !same(e)
    ensures Filter(s, same) == []
  {
    if s != [] {
      NoneSame(s[1..], same);
    }
  }

  /** Two elements given in the wrong order come out swapped. */
  lemma SortSwapsPair<T>(x: T, y: T, before: (T, T) -> bool)
    requires before(y, x)
    ensures Sort([x, y], before) == [y, x]
  {
    assert [x, y][..1] == [x];
    assert Sort([x], before) == Insert(x, Sort([], before), before) == [x];
    assert Sort([x, y], before) == Insert(y, [x], before);
  }

  lemma {:induction false} FilterAppend<T(!new)>(s: seq<T>, t: seq<T>, p: T -> bool)
    ensures Filter(s + t, p) == Filter(s, p) + Filter(t, p)
  {
    if s != [] {
      var u := s + t;
      assert u[0] == s[0] && u[1..] == s[1..] + t;
      FilterAppend(s[1..], t, p);
      var rest := Filter(s[1..], p) + Filter(t, p);
      if p(s[0]) {
        assert Filter(u, p) == [s[0]] + rest;
        assert Filter(s, p) == [s[0]] + Filter(s[1..], p);
      } else {
        assert Filter(u, p) == rest;
        assert Filter(s, p) == Filter(s[1..], p);
      }
    } else {
      assert s + t == t;
    }
  }

  /**
   * Stability: the elements of a class that the order does not separate come out
   * in their input order.
   */
  lemma {:induction false} SortStable<T(!new)>(s: seq<T>, before: (T, T) -> bool, same: T -> bool)
    requires StrictWeakOrder(before) && Unordered(same, before)
    ensures Filter(Sort(s, before), same) == Filter(s, same)
  {
    if s != [] {
      var init, last := s[..|s| - 1], s[|s| - 1];
      assert s == init + [last];
      var sorted := Sort(init, before);
      assert Sort(s, before) == Insert(last, sorted, before);
      SortStable(init, before, same);
      SortSorted(init, before);
      InsertStable(last, sorted, before, same);
      FilterAppend(init, [last], same);
      assert Filter([last], same) == if same(last) then [last] else [];
    }
  }
}
