/** Sorting by a strict order. */
module Sorting {
  import opened Lists

  /** In front of the first element that does not come before it: equals keep their order. */
  function Insert<T>(before: (T, T) -> bool, x: T, s: seq<T>): seq<T> {
    if s == [] || !before(s[0], x) then [x] + s else [s[0]] + Insert(before, x, s[1..])
  }

  function Sort<T>(before: (T, T) -> bool, s: seq<T>): seq<T> {
    if s == [] then [] else Insert(before, s[0], Sort(before, s[1..]))
  }

  ghost predicate IsStrictOrder<T(!new)>(before: (T, T) -> bool) {
    && (forall a, b :: before(a, b) ==> !before(b, a))
    && (forall a, b, c :: before(a, b) && before(b, c) ==> before(a, c))
  }

  ghost predicate IsTotalOn<T>(before: (T, T) -> bool, s: seq<T>) {
    forall i, j :: 0 <= i < j < |s| ==> before(s[i], s[j]) || before(s[j], s[i])
  }

  ghost predicate Sorted<T>(before: (T, T) -> bool, s: seq<T>) {
    forall i, j :: 0 <= i < j < |s| ==> before(s[i], s[j])
  }

  lemma {:induction false} InsertKeepsElements<T(!new)>(before: (T, T) -> bool, x: T, s: seq<T>)
    ensures SameElements(Insert(before, x, s), [x] + s) && |Insert(before, x, s)| == |s| + 1
  {
    if s != [] && before(s[0], x) {
      assert s == [s[0]] + s[1..];
      InsertKeepsElements(before, x, s[1..]);
    }
  }

  lemma {:induction false} SortKeepsElements<T(!new)>(before: (T, T) -> bool, s: seq<T>)
    ensures SameElements(Sort(before, s), s) && |Sort(before, s)| == |s|
  {
    if s != [] {
      assert s == [s[0]] + s[1..];
      SortKeepsElements(before, s[1..]);
      InsertKeepsElements(before, s[0], Sort(before, s[1..]));
    }
  }

  lemma {:induction false} InsertKeepsDistinct<T(!new)>(before: (T, T) -> bool, x: T, s: seq<T>)
    requires NoDuplicates(s) && x !in s
    ensures NoDuplicates(Insert(before, x, s))
  {
    if s != [] && before(s[0], x) {
      assert s == [s[0]] + s[1..];
      InsertKeepsDistinct(before, x, s[1..]);
      InsertKeepsElements(before, x, s[1..]);
      var r := Insert(before, x, s[1..]);
      forall j | 0 <= j < |r| ensures r[j] != s[0] {
        assert r[j] in r;
        if r[j] in s[1..] {
          var k :| 0 <= k < |s| - 1 && s[1..][k] == r[j];
          assert s[k + 1] == r[j];
        }
      }
    }
  }

  /** Sorting neither loses nor repeats an element, equals included. */
  lemma {:induction false} SortKeepsDistinct<T(!new)>(before: (T, T) -> bool, s: seq<T>)
    requires NoDuplicates(s)
    ensures NoDuplicates(Sort(before, s))
  {
    if s != [] {
      SortKeepsDistinct(before, s[1..]);
      SortKeepsElements(before, s[1..]);
      InsertKeepsDistinct(before, s[0], Sort(before, s[1..]));
    }
  }

  lemma {:induction false} InsertSorts<T(!new)>(before: (T, T) -> bool, x: T, s: seq<T>)
    requires IsStrictOrder(before) && Sorted(before, s)
    requires forall y :: y in s ==> before(x, y) || before(y, x)
    ensures Sorted(before, Insert(before, x, s))
  {
    if s == [] || !before(s[0], x) {
      forall j | 0 <= j < |s| ensures before(x, s[j]) {
        assert s[0] in s;
      }
    } else {
      InsertSorts(before, x, s[1..]);
      InsertKeepsElements(before, x, s[1..]);
      var r := Insert(before, x, s[1..]);
      forall j | 0 <= j < |r| ensures before(s[0], r[j]) {
        assert r[j] in r;
        if r[j] in s[1..] {
          var k :| 0 <= k < |s| - 1 && s[1..][k] == r[j];
          assert s[k + 1] == r[j];
        }
      }
    }
  }

  lemma {:induction false} SortSorts<T(!new)>(before: (T, T) -> bool, s: seq<T>)
    requires IsStrictOrder(before) && IsTotalOn(before, s)
    ensures Sorted(before, Sort(before, s))
  {
    if s != [] {
      SortSorts(before, s[1..]);
      SortKeepsElements(before, s[1..]);
      forall y | y in Sort(before, s[1..]) ensures before(s[0], y) || before(y, s[0]) {
        assert y in s[1..];
        var k :| 0 <= k < |s| - 1 && s[1..][k] == y;
        assert s[k + 1] == y;
      }
      InsertSorts(before, s[0], Sort(before, s[1..]));
    }
  }

  lemma FirstIsBeforeRest<T(!new)>(before: (T, T) -> bool, s: seq<T>, x: T)
    requires IsStrictOrder(before) && s != [] && Sorted(before, s)
    ensures x in s[1..] <==> x in s && x != s[0]
  {
    assert s == [s[0]] + s[1..];
    if x in s[1..] {
      var k :| 0 <= k < |s| - 1 && s[1..][k] == x;
      assert before(s[0], s[k + 1]);
    }
  }

  /** There is only one sorted sequence of a given set of elements. */
  lemma {:induction false} SortedIsUnique<T(!new)>(before: (T, T) -> bool, a: seq<T>, b: seq<T>)
    requires IsStrictOrder(before) && Sorted(before, a) && Sorted(before, b) && SameElements(a, b)
    ensures a == b
  {
    assert a != [] ==> a[0] in b;
    assert b != [] ==> b[0] in a;
    if a != [] && b != [] {
      var i :| 0 <= i < |b| && b[i] == a[0];
      var j :| 0 <= j < |a| && a[j] == b[0];
      assert a[0] == b[0];
      forall x ensures x in a[1..] <==> x in b[1..] {
        FirstIsBeforeRest(before, a, x);
        FirstIsBeforeRest(before, b, x);
      }
      SortedIsUnique(before, a[1..], b[1..]);
    }
  }

  /** So the result of sorting does not depend on the order the elements came in. */
  lemma SortForgetsOrder<T(!new)>(before: (T, T) -> bool, a: seq<T>, b: seq<T>)
    requires IsStrictOrder(before) && IsTotalOn(before, a) && IsTotalOn(before, b) && SameElements(a, b)
    ensures Sort(before, a) == Sort(before, b)
  {
    SortSorts(before, a);
    SortSorts(before, b);
    SortKeepsElements(before, a);
    SortKeepsElements(before, b);
    SortedIsUnique(before, Sort(before, a), Sort(before, b));
  }

  // ----- Orders in which different elements can be equal -----

  /** Neither before the other is transitive, as for things compared by one of their fields. */
  ghost predicate IsWeakOrder<T(!new)>(before: (T, T) -> bool) {
    IsStrictOrder(before) && forall a, b, c :: !before(a, b) && !before(b, c) ==> !before(a, c)
  }

  ghost predicate NeverDescends<T>(before: (T, T) -> bool, s: seq<T>) {
    forall i, j :: 0 <= i < j < |s| ==> !before(s[j], s[i])
  }

  lemma {:induction false} InsertAscends<T(!new)>(before: (T, T) -> bool, x: T, s: seq<T>)
    requires IsWeakOrder(before) && NeverDescends(before, s)
    ensures NeverDescends(before, Insert(before, x, s))
  {
    if s != [] {
      if before(s[0], x) {
        InsertAscends(before, x, s[1..]);
        InsertKeepsElements(before, x, s[1..]);
        var r := Insert(before, x, s[1..]);
        forall j | 0 <= j < |r| ensures !before(r[j], s[0]) {
          assert r[j] in r;
          if r[j] in s[1..] {
            var k :| 0 <= k < |s| - 1 && s[1..][k] == r[j];
            assert s[k + 1] == r[j];
          }
        }
      } else {
        forall j | 0 <= j < |s| ensures !before(s[j], x) {
          assert !before(s[j], s[0]);
        }
      }
    }
  }

  lemma {:induction false} SortAscends<T(!new)>(before: (T, T) -> bool, s: seq<T>)
    requires IsWeakOrder(before)
    ensures NeverDescends(before, Sort(before, s))
  {
    if s != [] {
      SortAscends(before, s[1..]);
      InsertAscends(before, s[0], Sort(before, s[1..]));
    }
  }

  lemma {:induction false} InsertIsStable<T(!new)>(before: (T, T) -> bool, x: T, s: seq<T>, keep: T -> bool)
    requires forall a, b :: keep(a) && keep(b) ==> !before(a, b)
    ensures Select(keep, Insert(before, x, s)) == (if keep(x) then [x] else []) + Select(keep, s)
  {
    if s == [] || !before(s[0], x) {
      SelectFromFront(keep, x, s);
    } else {
      InsertIsStable(before, x, s[1..], keep);
      SelectFromFront(keep, s[0], Insert(before, x, s[1..]));
      SelectFromFront(keep, s[0], s[1..]);
      assert s == [s[0]] + s[1..];
    }
  }

  /** Elements that are all equal to each other stay in the order they came in. */
  lemma {:induction false} SortIsStable<T(!new)>(before: (T, T) -> bool, s: seq<T>, keep: T -> bool)
    requires forall a, b :: keep(a) && keep(b) ==> !before(a, b)
    ensures Select(keep, Sort(before, s)) == Select(keep, s)
  {
    if s != [] {
      SortIsStable(before, s[1..], keep);
      InsertIsStable(before, s[0], Sort(before, s[1..]), keep);
      SelectFromFront(keep, s[0], s[1..]);
      assert s == [s[0]] + s[1..];
    }
  }
}
