/** Sequences: lookups in lists of lists, distinct members, and stable sorting as `sorted` does it. */
module Sequences {

  /** A `defaultdict(list)` lookup. */
  function Listed<K, V>(lists: map<K, seq<V>>, key: K): seq<V> {
    if key in lists then lists[key] else []
  }

  /** `lists[key].append(v)`. */
  function Appended<K(!new), V>(lists: map<K, seq<V>>, key: K, v: V): (r: map<K, seq<V>>)
    ensures r.Keys == lists.Keys + {key}
    ensures forall k :: Listed(r, k) == if k == key then Listed(lists, k) + [v] else Listed(lists, k)
  {
    lists[key := Listed(lists, key) + [v]]
  }

  lemma NoMembers<T(!new)>(s: seq<T>)
    ensures (forall x :: x !in s) ==> s == []
  {
    if s != [] {
      assert s[0] in s;
    }
  }

  /** A total preorder: any two elements compare, and comparisons chain. */
  ghost predicate Preorder<T(!new)>(le: (T, T) -> bool) {
    && (forall a, b :: le(a, b) || le(b, a))
    && (forall a, b, c :: le(a, b) && le(b, c) ==> le(a, c))
  }

  /** x goes after every element it does not precede. */
  function Insert<T>(s: seq<T>, x: T, le: (T, T) -> bool): (r: seq<T>)
    ensures multiset(r) == multiset(s) + multiset{x}
  {
    if s == [] || le(s[|s| - 1], x) then s + [x]
    else
      assert s == s[..|s| - 1] + [s[|s| - 1]];
      Insert(s[..|s| - 1], x, le) + [s[|s| - 1]]
  }

  function Sort<T>(s: seq<T>, le: (T, T) -> bool): (r: seq<T>)
    ensures multiset(r) == multiset(s)
  {
    if s == [] then []
    else
      assert s == s[..|s| - 1] + [s[|s| - 1]];
      Insert(Sort(s[..|s| - 1], le), s[|s| - 1], le)
  }

  ghost predicate Ascending<T>(s: seq<T>, le: (T, T) -> bool) {
    forall i, j :: 0 <= i < j < |s| ==> le(s[i], s[j])
  }

  lemma {:induction false} InsertAscends<T(!new)>(s: seq<T>, x: T, le: (T, T) -> bool)
    requires Preorder(le) && Ascending(s, le)
    ensures Ascending(Insert(s, x, le), le)
  {
    if s != [] && !le(s[|s| - 1], x) {
      var front, z := s[..|s| - 1], s[|s| - 1];
      InsertAscends(front, x, le);
      forall y | y in Insert(front, x, le)
        ensures le(y, z)
      {
        assert y in multiset(front) + multiset{x};
      }
    }
  }

  lemma {:induction false} SortAscends<T(!new)>(s: seq<T>, le: (T, T) -> bool)
    requires Preorder(le)
    ensures Ascending(Sort(s, le), le)
  {
    if s != [] {
      SortAscends(s[..|s| - 1], le);
      InsertAscends(Sort(s[..|s| - 1], le), s[|s| - 1], le);
    }
  }

  lemma SameMembers<T>(s: seq<T>, le: (T, T) -> bool, x: T)
    ensures x in Sort(s, le) <==> x in s
  {
    assert x in Sort(s, le) <==> x in multiset(Sort(s, le));
    assert x in s <==> x in multiset(s);
  }

  ghost predicate Distinct<T>(s: seq<T>) {
    forall i, j :: 0 <= i < j < |s| ==> s[i] != s[j]
  }

  lemma {:induction false} DistinctCounts<T>(s: seq<T>)
    ensures Distinct(s) <==> forall x :: multiset(s)[x] <= 1
  {
    if s != [] {
      var front, z := s[..|s| - 1], s[|s| - 1];
      DistinctCounts(front);
      assert s == front + [z];
      if Distinct(s) {
        assert z !in multiset(front);
      } else if Distinct(front) {
        assert exists k :: 0 <= k < |front| && front[k] == z;
        assert multiset(s)[z] >= 2;
      } else {
        var x :| multiset(front)[x] > 1;
        assert multiset(s)[x] > 1;
      }
    }
  }

  lemma SortKeepsDistinct<T>(s: seq<T>, le: (T, T) -> bool)
    ensures Distinct(Sort(s, le)) <==> Distinct(s)
    ensures |Sort(s, le)| == |s|
  {
    DistinctCounts(s);
    DistinctCounts(Sort(s, le));
    assert |multiset(s)| == |s| && |multiset(Sort(s, le))| == |Sort(s, le)|;
  }

  // ---------------------------------------------------------------- comparing strings

  predicate StringLe(a: string, b: string) {
    a == "" || (b != "" && (a[0] < b[0] || (a[0] == b[0] && StringLe(a[1..], b[1..]))))
  }

  lemma {:induction false} StringTotal(a: string, b: string)
    ensures StringLe(a, b) || StringLe(b, a)
  {
    if a != "" && b != "" && a[0] == b[0] {
      StringTotal(a[1..], b[1..]);
    }
  }

  lemma {:induction false} StringChains(a: string, b: string, c: string)
    requires StringLe(a, b) && StringLe(b, c)
    ensures StringLe(a, c)
  {
    if a != "" && a[0] == b[0] == c[0] {
      StringChains(a[1..], b[1..], c[1..]);
    }
  }

  lemma {:induction false} StringAntisymmetric(a: string, b: string)
    requires StringLe(a, b) && StringLe(b, a)
    ensures a == b
  {
    if a != "" {
      StringAntisymmetric(a[1..], b[1..]);
      assert a == [a[0]] + a[1..] && b == [b[0]] + b[1..];
    }
  }

  lemma StringPreorder()
    ensures Preorder(StringLe)
  {
    hide StringLe;
    forall x, y
      ensures StringLe(x, y) || StringLe(y, x)
    {
      StringTotal(x, y);
    }
    forall x, y, z | StringLe(x, y) && StringLe(y, z)
      ensures StringLe(x, z)
    {
      StringChains(x, y, z);
    }
  }

  /** Character order: `a` is a start of `b`, or has the smaller character where they first differ. */
  lemma {:induction false} StringLeIff(a: string, b: string)
    ensures StringLe(a, b) <==>
              a <= b || exists n :: 0 <= n < |a| && n < |b| && a[..n] == b[..n] && a[n] < b[n]
  {
    if a != "" && b != "" && a[0] == b[0] {
      var x, y := a[1..], b[1..];
      StringLeIff(x, y);
      assert a == [a[0]] + x && b == [b[0]] + y;
      if n :| 0 <= n < |x| && n < |y| && x[..n] == y[..n] && x[n] < y[n] {
        assert a[..n + 1] == [a[0]] + x[..n] && b[..n + 1] == [b[0]] + y[..n];
      }
      if n :| 0 <= n < |a| && n < |b| && a[..n] == b[..n] && a[n] < b[n] {
        assert n > 0;
        assert x[..n - 1] == a[..n][1..] && y[..n - 1] == b[..n][1..];
        assert x[n - 1] < y[n - 1];
      }
      assert a <= b <==> x <= y by { PrefixStep(a, b); }
    } else if a != "" && b != "" {
      assert a[..0] == b[..0];
    }
  }

  lemma PrefixStep(a: string, b: string)
    requires a != "" && b != "" && a[0] == b[0]
    ensures a <= b <==> a[1..] <= b[1..]
  {
    if a <= b {
      assert b[1..][..|a| - 1] == b[..|a|][1..];
    }
    if a[1..] <= b[1..] {
      assert b[..|a|] == [b[0]] + b[1..][..|a| - 1];
    }
  }

  // ---------------------------------------------------------------- stability

  /** The elements that neither precede nor follow x. */
  function Ties<T>(s: seq<T>, x: T, le: (T, T) -> bool): seq<T> {
    if s == [] then []
    else
      var z := s[|s| - 1];
      Ties(s[..|s| - 1], x, le) + if le(z, x) && le(x, z) then [z] else []
  }

  lemma TiesLast<T>(s: seq<T>, z: T, x: T, le: (T, T) -> bool)
    ensures Ties(s + [z], x, le) == Ties(s, x, le) + if le(z, x) && le(x, z) then [z] else []
  {
    assert (s + [z])[..|s|] == s;
  }

  lemma {:induction false} InsertStable<T(!new)>(s: seq<T>, y: T, x: T, le: (T, T) -> bool)
    requires Preorder(le)
    ensures Ties(Insert(s, y, le), x, le) == Ties(s, x, le) + if le(y, x) && le(x, y) then [y] else []
  {
    hide Ties, Preorder;
    if s == [] || le(s[|s| - 1], y) {
      TiesLast(s, y, x, le);
    } else {
      var front, z := s[..|s| - 1], s[|s| - 1];
      InsertStable(front, y, x, le);
      TiesLast(Insert(front, y, le), z, x, le);
      assert s == front + [z];
      TiesLast(front, z, x, le);
      NotBothTie(z, y, x, le);
    }
  }

  lemma NotBothTie<T(!new)>(z: T, y: T, x: T, le: (T, T) -> bool)
    requires Preorder(le) && !le(z, y)
    ensures !(le(x, y) && le(z, x))
  {
  }

  /** Sorting keeps the order of elements that compare equal. */
  lemma {:induction false} SortStable<T(!new)>(s: seq<T>, x: T, le: (T, T) -> bool)
    requires Preorder(le)
    ensures Ties(Sort(s, le), x, le) == Ties(s, x, le)
  {
    if s != [] {
      SortStable(s[..|s| - 1], x, le);
      InsertStable(Sort(s[..|s| - 1], le), s[|s| - 1], x, le);
    }
  }
}
