/** Filtering, mapping, searching and joining sequences. */
module Lists {
  import opened Wrappers

  ghost predicate SameElements<T(!new)>(a: seq<T>, b: seq<T>) {
    forall x :: x in a <==> x in b
  }

  function Flatten<T>(pages: seq<seq<T>>): seq<T> {
    if pages == [] then [] else pages[0] + Flatten(pages[1..])
  }

  function FilterMap<A, B>(f: A -> Option<B>, s: seq<A>): seq<B> {
    if s == [] then []
    else
      var y := f(s[|s| - 1]);
      FilterMap(f, s[..|s| - 1]) + (if y.Some? then [y.value] else [])
  }

  lemma {:induction false} FilterMapElements<A(!new), B(!new)>(f: A -> Option<B>, s: seq<A>)
    ensures forall y :: y in FilterMap(f, s) <==> exists x :: x in s && f(x) == Some(y)
  {
    if s != [] {
      FilterMapElements(f, s[..|s| - 1]);
      assert s == s[..|s| - 1] + [s[|s| - 1]];
    }
  }

  lemma {:induction false} FilterMapNone<A(!new), B(!new)>(f: A -> Option<B>, s: seq<A>)
    requires forall x :: x in s ==> f(x).None?
    ensures FilterMap(f, s) == []
  {
    if s != [] {
      assert s[|s| - 1] in s;
      FilterMapNone(f, s[..|s| - 1]);
    }
  }

  lemma FilterMapSame<A(!new), B(!new)>(f: A -> Option<B>, a: seq<A>, b: seq<A>)
    requires SameElements(a, b)
    ensures SameElements(FilterMap(f, a), FilterMap(f, b))
  {
    FilterMapElements(f, a);
    FilterMapElements(f, b);
  }

  function Select<A>(keep: A -> bool, s: seq<A>): seq<A> {
    if s == [] then []
    else Select(keep, s[..|s| - 1]) + (if keep(s[|s| - 1]) then [s[|s| - 1]] else [])
  }

  lemma {:induction false} SelectElements<A(!new)>(keep: A -> bool, s: seq<A>)
    ensures forall x :: x in Select(keep, s) <==> x in s && keep(x)
  {
    if s != [] {
      SelectElements(keep, s[..|s| - 1]);
      assert s == s[..|s| - 1] + [s[|s| - 1]];
    }
  }

  lemma SelectSame<A(!new)>(keep: A -> bool, a: seq<A>, b: seq<A>)
    requires SameElements(a, b)
    ensures SameElements(Select(keep, a), Select(keep, b))
  {
    SelectElements(keep, a);
    SelectElements(keep, b);
  }

  ghost predicate NoDuplicates<A>(s: seq<A>) {
    forall i, j :: 0 <= i < j < |s| ==> s[i] != s[j]
  }

  lemma {:induction false} SelectKeepsDistinct<A(!new)>(keep: A -> bool, s: seq<A>)
    requires NoDuplicates(s)
    ensures NoDuplicates(Select(keep, s))
  {
    if s != [] {
      SelectKeepsDistinct(keep, s[..|s| - 1]);
      SelectElements(keep, s[..|s| - 1]);
      var kept := Select(keep, s[..|s| - 1]);
      forall i | 0 <= i < |kept| ensures kept[i] != s[|s| - 1] {
        assert kept[i] in s[..|s| - 1];
      }
    }
  }

  function First<A>(keep: A -> bool, s: seq<A>): Option<A> {
    if s == [] then None else if keep(s[0]) then Some(s[0]) else First(keep, s[1..])
  }

  lemma {:induction false} FirstIs<A(!new)>(keep: A -> bool, s: seq<A>)
    ensures var r := First(keep, s);
      if r.Some? then r.value in s && keep(r.value) else forall x :: x in s ==> !keep(x)
  {
    if s != [] {
      assert s == [s[0]] + s[1..];
      FirstIs(keep, s[1..]);
    }
  }

  /** The element found is the one with nothing of the kind before it. */
  lemma {:induction false} FirstAtIff<A(!new)>(keep: A -> bool, s: seq<A>, x: A)
    ensures First(keep, s) == Some(x) <==> exists i :: 0 <= i < |s| && s[i] == x && keep(x) && forall j :: 0 <= j < i ==> !keep(s[j])
  {
    if s != [] && !keep(s[0]) {
      FirstAtIff(keep, s[1..], x);
      if i :| 0 <= i < |s| && s[i] == x && keep(x) && forall j :: 0 <= j < i ==> !keep(s[j]) {
        assert s[1..][i - 1] == x && forall j :: 0 <= j < i - 1 ==> s[1..][j] == s[j + 1];
      }
      if i :| 0 <= i < |s| - 1 && s[1..][i] == x && keep(x) && forall j :: 0 <= j < i ==> !keep(s[1..][j]) {
        assert forall j :: 1 <= j < i + 1 ==> s[j] == s[1..][j - 1];
        assert s[i + 1] == x;
      }
    }
  }

  lemma {:induction false} SelectFromFront<A>(keep: A -> bool, x: A, s: seq<A>)
    ensures Select(keep, [x] + s) == (if keep(x) then [x] else []) + Select(keep, s)
  {
    if s != [] {
      var shorter := s[..|s| - 1];
      SelectFromFront(keep, x, shorter);
      assert ([x] + s)[..|s|] == [x] + shorter;
    }
  }

  // ----- Grouping by a key, in a map that remembers the order of its keys -----

  /** The keys in the order in which they first appear. */
  function KeysInOrder<T, K(==)>(key: T -> K, s: seq<T>): seq<K> {
    if s == [] then []
    else
      var before, k := KeysInOrder(key, s[..|s| - 1]), key(s[|s| - 1]);
      if k in before then before else before + [k]
  }

  function Keyed<T, K(==)>(key: T -> K, k: K): T -> bool {
    (x: T) => key(x) == k
  }

  lemma {:induction false} KeysAppear<T(!new), K>(key: T -> K, s: seq<T>)
    ensures forall k :: k in KeysInOrder(key, s) <==> exists x :: x in s && key(x) == k
  {
    if s != [] {
      KeysAppear(key, s[..|s| - 1]);
      assert s == s[..|s| - 1] + [s[|s| - 1]];
    }
  }

  method GroupBy<T, K(!new, ==)>(key: T -> K, s: seq<T>) returns (keys: seq<K>, groups: map<K, seq<T>>)
    ensures keys == KeysInOrder(key, s)
    ensures forall k :: k in groups <==> k in keys
    ensures forall k :: k in keys ==> groups[k] == Select(Keyed(key, k), s)
  {
    keys, groups := [], map[];
    for i := 0 to |s|
      invariant keys == KeysInOrder(key, s[..i])
      invariant forall k :: k in groups <==> k in keys
      invariant forall k :: k in keys ==> groups[k] == Select(Keyed(key, k), s[..i])
      invariant forall k :: k !in keys ==> Select(Keyed(key, k), s[..i]) == []
    {
      var k := key(s[i]);
      assert s[..i + 1][..i] == s[..i];
      assert forall other :: Select(Keyed(key, other), s[..i + 1]) == Select(Keyed(key, other), s[..i]) + (if other == k then [s[i]] else []);
      if k !in groups {
        keys, groups := keys + [k], groups[k := []];
      }
      groups := groups[k := groups[k] + [s[i]]];
    }
    assert s[..|s|] == s;
  }
}
