/** Sentences grouped by a key, in order of first appearance. */
module Groups {
  import opened Targets
  import opened Sequences

  datatype Sentence = Sentence(split: Split, index: nat, tokens: seq<string>, labels: seq<string>)

  /** The valid sentences of each split. */
  datatype Parsed = Parsed(train: seq<Sentence>, valid: seq<Sentence>, test: seq<Sentence>) {
    function At(s: Split): seq<Sentence> {
      match s case Train => train case Valid => valid case Test => test
    }

    function All(): seq<Sentence> {
      train + valid + test
    }
  }

  /** Every sentence knows its split, and indexes rise within a split. */
  predicate WellFormed(p: Parsed) {
    forall s: Split :: WellFormedSplit(p.At(s), s)
  }

  predicate WellFormedSplit(xs: seq<Sentence>, s: Split) {
    && (forall i :: 0 <= i < |xs| ==> xs[i].split == s)
    && (forall i, j :: 0 <= i < j < |xs| ==> xs[i].index < xs[j].index)
  }

  lemma InItsSplit(p: Parsed, x: Sentence)
    requires WellFormed(p)
    ensures x in p.All() <==> x in p.At(x.split)
  {
    assert WellFormedSplit(p.At(Train), Train) && WellFormedSplit(p.At(Valid), Valid)
           && WellFormedSplit(p.At(Test), Test);
    assert x in p.All() <==> x in p.train || x in p.valid || x in p.test;
  }

  /** A sentence is known by its split and index. */
  lemma SameIndex(p: Parsed, x: Sentence, y: Sentence)
    requires WellFormed(p) && x in p.All() && y in p.All() && x.split == y.split && x.index == y.index
    ensures x == y
  {
    InItsSplit(p, x);
    InItsSplit(p, y);
    var xs := p.At(x.split);
    assert WellFormedSplit(xs, x.split);
    var i :| 0 <= i < |xs| && xs[i] == x;
    var j :| 0 <= j < |xs| && xs[j] == y;
    assert i == j;
  }

  // ---------------------------------------------------------------- groups

  /** Distinct keys in order of first appearance. */
  function Keys<K(==)>(xs: seq<Sentence>, key: Sentence -> K): (r: seq<K>)
    ensures Distinct(r)
    ensures forall i :: 0 <= i < |xs| ==> key(xs[i]) in r
  {
    if xs == [] then []
    else
      var front, k := Keys(xs[..|xs| - 1], key), key(xs[|xs| - 1]);
      assert forall i :: 0 <= i < |xs| - 1 ==> xs[..|xs| - 1][i] == xs[i];
      if k in front then front else front + [k]
  }

  function Occurrences<K(==)>(xs: seq<Sentence>, key: Sentence -> K, k: K): (r: seq<Sentence>)
    ensures forall x :: x in r <==> x in xs && key(x) == k
  {
    if xs == [] then []
    else
      var z := xs[|xs| - 1];
      assert xs == xs[..|xs| - 1] + [z];
      Occurrences(xs[..|xs| - 1], key, k) + if key(z) == k then [z] else []
  }

  lemma {:induction false} KeysOccur<K(!new)>(xs: seq<Sentence>, key: Sentence -> K, k: K)
    ensures k in Keys(xs, key) <==> Occurrences(xs, key, k) != []
  {
    if xs != [] {
      KeysOccur(xs[..|xs| - 1], key, k);
    }
  }

  lemma NextSentence<K(!new)>(xs: seq<Sentence>, key: Sentence -> K, n: nat)
    requires n < |xs|
    ensures var front, k := Keys(xs[..n], key), key(xs[n]);
            Keys(xs[..n + 1], key) == if k in front then front else front + [k]
    ensures forall k :: Occurrences(xs[..n + 1], key, k)
                        == Occurrences(xs[..n], key, k) + if key(xs[n]) == k then [xs[n]] else []
  {
    assert xs[..n + 1][..n] == xs[..n];
  }

  lemma NoGroups<K(!new)>(key: Sentence -> K)
    ensures Keys([], key) == [] && forall k :: Occurrences([], key, k) == []
  {
  }

  method GroupBy<K(==, !new)>(xs: seq<Sentence>, key: Sentence -> K)
    returns (keys: seq<K>, groups: map<K, seq<Sentence>>)
    ensures keys == Keys(xs, key)
    ensures forall k :: Listed(groups, k) == Occurrences(xs, key, k)
  {
    hide Keys, Occurrences;
    keys, groups := [], map[];
    NoGroups(key);
    assert xs[..0] == [];
    for n := 0 to |xs|
      invariant keys == Keys(xs[..n], key)
      invariant forall k :: Listed(groups, k) == Occurrences(xs[..n], key, k)
    {
      NextSentence(xs, key, n);
      var k := key(xs[n]);
      if k !in keys {
        keys := keys + [k];
      }
      groups := Appended(groups, k, xs[n]);
    }
    assert xs[..|xs|] == xs;
  }

  // ---------------------------------------------------------------- group sizes

  /** The sizes of the groups of some keys, added up. */
  function Sizes<K(==)>(xs: seq<Sentence>, key: Sentence -> K, ks: seq<K>): nat {
    if ks == [] then 0 else Sizes(xs, key, ks[..|ks| - 1]) + |Occurrences(xs, key, ks[|ks| - 1])|
  }

  lemma {:induction false} OneMoreSize<K(!new)>(xs: seq<Sentence>, key: Sentence -> K, z: Sentence, ks: seq<K>)
    requires Distinct(ks)
    ensures Sizes(xs + [z], key, ks) == Sizes(xs, key, ks) + if key(z) in ks then 1 else 0
  {
    if ks != [] {
      var front, k := ks[..|ks| - 1], ks[|ks| - 1];
      OneMoreSize(xs, key, z, front);
      assert k !in front && ks == front + [k];
      assert (xs + [z])[..|xs|] == xs;
    }
  }

  lemma NewKeySize<K(!new)>(front: seq<Sentence>, key: Sentence -> K, z: Sentence)
    requires key(z) !in Keys(front, key)
    ensures Sizes(front + [z], key, Keys(front, key) + [key(z)]) == Sizes(front + [z], key, Keys(front, key)) + 1
  {
    var ks := Keys(front, key);
    KeysOccur(front, key, key(z));
    assert (ks + [key(z)])[..|ks|] == ks;
    assert (front + [z])[..|front|] == front;
  }

  /** Every sentence is in exactly one group. */
  lemma {:induction false} SizesAddUp<K(!new)>(xs: seq<Sentence>, key: Sentence -> K)
    ensures Sizes(xs, key, Keys(xs, key)) == |xs|
  {
    hide Sizes, Occurrences, Keys;
    if xs == [] {
      NoSizes(key);
    } else {
      var front, z := xs[..|xs| - 1], xs[|xs| - 1];
      SizesAddUp(front, key);
      OneMoreSize(front, key, z, Keys(front, key));
      NextSentence(xs, key, |front|);
      assert xs == front + [z] && xs[..|xs|] == xs;
      if key(z) !in Keys(front, key) {
        NewKeySize(front, key, z);
      }
    }
  }

  lemma NoSizes<K(!new)>(key: Sentence -> K)
    ensures Sizes([], key, Keys([], key)) == 0
  {
  }

  /** The occurrences carry different label sequences. */
  predicate Ambiguous(occ: seq<Sentence>) {
    exists i :: 0 <= i < |occ| && occ[i].labels != occ[0].labels
  }

  // ---------------------------------------------------------------- lists by index

  predicate IndexLe(x: Sentence, y: Sentence) {
    x.index <= y.index
  }

  predicate Rising(xs: seq<Sentence>) {
    forall i, j :: 0 <= i < j < |xs| ==> xs[i].index < xs[j].index
  }

  /** Two rising lists with the same members are the same list. */
  lemma {:induction false} RisingUnique(a: seq<Sentence>, b: seq<Sentence>)
    requires Rising(a) && Rising(b) && forall x :: x in a <==> x in b
    ensures a == b
  {
    if a == [] {
      NoMembers(b);
    } else if b == [] {
      NoMembers(a);
    } else {
      var y, z, af, bf := a[|a| - 1], b[|b| - 1], a[..|a| - 1], b[..|b| - 1];
      LastIsGreatest(a, z);
      LastIsGreatest(b, y);
      assert y == z;
      forall x
        ensures x in af <==> x in bf
      {
        LastIsApart(a, x);
        LastIsApart(b, x);
      }
      RisingUnique(af, bf);
      assert a == af + [y] && b == bf + [z];
    }
  }

  lemma LastIsGreatest(a: seq<Sentence>, x: Sentence)
    requires Rising(a) && x in a
    ensures x == a[|a| - 1] || x.index < a[|a| - 1].index
  {
  }

  lemma LastIsApart(a: seq<Sentence>, x: Sentence)
    requires Rising(a) && a != []
    ensures x in a[..|a| - 1] <==> x in a && x != a[|a| - 1]
  {
    if x in a && x != a[|a| - 1] {
      var k :| 0 <= k < |a| && a[k] == x;
      assert a[..|a| - 1][k] == x;
    }
  }
}
