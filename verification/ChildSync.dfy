/** Reconciling the child rows of a threat event with a new object, keeping row identity. */
module ChildSync {
  import opened Sequences

  type Key = seq<string>

  datatype Payload = Payload(confidence: real, extractor: string)

  /** An extracted indicator, entity or relationship. */
  datatype Item = Item(key: Key, payload: Payload)

  /** A stored row; enrichments hang on its identity. */
  class Row {
    const key: Key
    var payload: Payload

    constructor (k: Key, p: Payload)
      ensures key == k && payload == p
    {
      key, payload := k, p;
    }
  }

  // ---------------------------------------------------------------- what a reconciliation keeps

  predicate HasKey(rows: seq<Row>, k: Key) {
    exists i :: 0 <= i < |rows| && rows[i].key == k
  }

  /** The last row with the key. */
  function LastOf(rows: seq<Row>, k: Key): (r: Row)
    requires HasKey(rows, k)
    ensures r in rows && r.key == k
  {
    var z := rows[|rows| - 1];
    if z.key == k then z
    else
      assert rows == rows[..|rows| - 1] + [z];
      LastOf(rows[..|rows| - 1], k)
  }

  /** The keys of the items, each once, in order. */
  function Desired(items: seq<Item>): (ks: seq<Key>)
    ensures Distinct(ks)
    ensures forall i :: 0 <= i < |items| ==> items[i].key in ks
  {
    if items == [] then []
    else
      var front, k := Desired(items[..|items| - 1]), items[|items| - 1].key;
      assert forall i :: 0 <= i < |items| - 1 ==> items[..|items| - 1][i] == items[i];
      if k in front then front else front + [k]
  }

  /** The payload of the first item with the key. */
  function FirstPayload(items: seq<Item>, k: Key): Payload
    requires exists i :: 0 <= i < |items| && items[i].key == k
  {
    if items[0].key == k then items[0].payload else FirstPayload(items[1..], k)
  }

  /** Keys to be created for the first n items. */
  function NewKeys(rows: seq<Row>, ks: seq<Key>): (r: seq<Key>)
    ensures forall k :: k in r <==> k in ks && !HasKey(rows, k)
    ensures Distinct(ks) ==> Distinct(r)
  {
    if ks == [] then []
    else
      var k := ks[|ks| - 1];
      assert ks == ks[..|ks| - 1] + [k];
      assert Distinct(ks) ==> k !in ks[..|ks| - 1];
      NewKeys(rows, ks[..|ks| - 1]) + if HasKey(rows, k) then [] else [k]
  }

  /** The row a lookup by key cannot find any more and that no item asks for. */
  predicate Stale(rows: seq<Row>, ks: seq<Key>, r: Row) {
    HasKey(rows, r.key) && r.key !in ks && r == LastOf(rows, r.key)
  }

  /** Rows of xs that are not stale: what `_sync_indicators` and `_sync_entities` leave of the old rows. */
  function Unstale(xs: seq<Row>, rows: seq<Row>, ks: seq<Key>): (r: seq<Row>)
    ensures forall x :: x in r ==> x in xs && !Stale(rows, ks, x)
    ensures forall x :: x in xs && !Stale(rows, ks, x) ==> x in r
  {
    if xs == [] then []
    else
      var z := xs[|xs| - 1];
      assert xs == xs[..|xs| - 1] + [z];
      Unstale(xs[..|xs| - 1], rows, ks) + if Stale(rows, ks, z) then [] else [z]
  }

  /** The last row of each desired key: what `_sync_relationships` leaves. */
  function Survivors(xs: seq<Row>, rows: seq<Row>, ks: seq<Key>): (r: seq<Row>)
    requires forall x :: x in xs ==> x in rows
    ensures forall x :: x in r ==> x in xs && x.key in ks && HasKey(rows, x.key) && x == LastOf(rows, x.key)
    ensures forall x :: x in xs && x.key in ks && HasKey(rows, x.key) && x == LastOf(rows, x.key) ==> x in r
  {
    if xs == [] then []
    else
      var z := xs[|xs| - 1];
      assert xs == xs[..|xs| - 1] + [z];
      assert z in rows;
      Survivors(xs[..|xs| - 1], rows, ks) + if z.key in ks && HasKey(rows, z.key) && z == LastOf(rows, z.key) then [z]
        else []
  }

  predicate DistinctKeys(rows: seq<Row>) {
    forall i, j :: 0 <= i < j < |rows| ==> rows[i].key != rows[j].key
  }

  /** One row for each desired key and no other row. */
  predicate Exact(rows: seq<Row>, ks: seq<Key>) {
    DistinctKeys(rows) && (forall r :: r in rows ==> r.key in ks) && forall k :: k in ks ==> HasKey(rows, k)
  }

  /** The rows created for the keys nobody held. */
  predicate Created(created: seq<Row>, rows: seq<Row>, ks: seq<Key>) {
    |created| == |NewKeys(rows, ks)| && forall i :: 0 <= i < |created| ==> created[i].key == NewKeys(rows, ks)[i]
  }

  lemma {:induction false} LastIsOnly(rows: seq<Row>, r: Row)
    requires DistinctKeys(rows) && r in rows
    ensures HasKey(rows, r.key) && LastOf(rows, r.key) == r
  {
    var front, z := rows[..|rows| - 1], rows[|rows| - 1];
    var k :| 0 <= k < |rows| && rows[k] == r;
    if r != z {
      assert front[k] == r;
      LastIsOnly(front, r);
    }
  }

  lemma {:induction false} UnstaleDistinct(xs: seq<Row>, rows: seq<Row>, ks: seq<Key>)
    requires DistinctKeys(xs)
    ensures DistinctKeys(Unstale(xs, rows, ks))
  {
    if xs != [] {
      var front, z := xs[..|xs| - 1], xs[|xs| - 1];
      UnstaleDistinct(front, rows, ks);
      assert forall x :: x in front ==> x.key != z.key;
    }
  }

  lemma CreatedMeaning(created: seq<Row>, rows: seq<Row>, ks: seq<Key>)
    requires Created(created, rows, ks) && Distinct(ks)
    ensures DistinctKeys(created)
    ensures forall r :: r in created ==> r.key in ks && !HasKey(rows, r.key)
    ensures forall k :: k in ks && !HasKey(rows, k) ==> HasKey(created, k)
  {
    var news := NewKeys(rows, ks);
    forall r | r in created
      ensures r.key in ks && !HasKey(rows, r.key)
    {
      var i :| 0 <= i < |created| && created[i] == r;
      assert news[i] in news;
    }
    forall k | k in ks && !HasKey(rows, k)
      ensures HasKey(created, k)
    {
      assert k in news;
      var i :| 0 <= i < |news| && news[i] == k;
      assert created[i].key == k;
    }
  }

  lemma JoinDistinct(a: seq<Row>, b: seq<Row>)
    requires DistinctKeys(a) && DistinctKeys(b) && forall x, y :: x in a && y in b ==> x.key != y.key
    ensures DistinctKeys(a + b)
  {
    forall i, j | 0 <= i < j < |a + b|
      ensures (a + b)[i].key != (a + b)[j].key
    {
      assert i < |a| ==> (a + b)[i] in a;
      assert j >= |a| ==> (a + b)[j] in b;
    }
  }

  lemma JoinHasKey(a: seq<Row>, b: seq<Row>, k: Key)
    ensures HasKey(a + b, k) <==> HasKey(a, k) || HasKey(b, k)
  {
    if i :| 0 <= i < |a| && a[i].key == k {
      assert (a + b)[i].key == k;
    }
    if i :| 0 <= i < |b| && b[i].key == k {
      assert (a + b)[|a| + i].key == k;
    }
    if i :| 0 <= i < |a + b| && (a + b)[i].key == k {
      assert if i < |a| then a[i].key == k else b[i - |a|].key == k;
    }
  }

  /** Old rows whose keys were distinct end as exactly the desired ones. */
  lemma DistinctEndsExact(rows: seq<Row>, ks: seq<Key>, created: seq<Row>)
    requires DistinctKeys(rows) && Distinct(ks) && Created(created, rows, ks)
    ensures Exact(Unstale(rows, rows, ks) + created, ks)
  {
    var kept := Unstale(rows, rows, ks);
    UnstaleDistinct(rows, rows, ks);
    CreatedMeaning(created, rows, ks);
    forall x | x in kept
      ensures x.key in ks && HasKey(rows, x.key)
    {
      LastIsOnly(rows, x);
    }
    JoinDistinct(kept, created);
    forall k | k in ks
      ensures HasKey(kept + created, k)
    {
      JoinHasKey(kept, created, k);
      if i :| 0 <= i < |rows| && rows[i].key == k {
        assert rows[i] in rows && rows[i] in kept;
        var j :| 0 <= j < |kept| && kept[j] == rows[i];
        assert kept[j].key == k;
      }
    }
  }

  /** Of two rows with one key the earlier one is never found, so it stays. */
  lemma ShadowedStays(rows: seq<Row>, ks: seq<Key>, created: seq<Row>, i: nat, j: nat)
    requires i < j < |rows| && rows[i].key == rows[j].key && Distinct(rows)
    ensures !Exact(Unstale(rows, rows, ks) + created, ks)
  {
    var r, k, final := rows[i], rows[i].key, Unstale(rows, rows, ks) + created;
    NotLast(rows, i, j);
    assert r in rows && !Stale(rows, ks, r);
    assert r in Unstale(rows, rows, ks) && r in final;
    if k in ks {
      var z := LastOf(rows, k);
      assert z in Unstale(rows, rows, ks) && z in final && z != r;
      var m :| 0 <= m < |final| && final[m] == r;
      var n :| 0 <= n < |final| && final[n] == z;
      assert final[m].key == final[n].key;
    }
  }

  lemma {:induction false} NotLast(rows: seq<Row>, i: nat, j: nat)
    requires i < j < |rows| && rows[i].key == rows[j].key && Distinct(rows)
    ensures HasKey(rows, rows[i].key) && LastOf(rows, rows[i].key) != rows[i]
  {
    var front, z := rows[..|rows| - 1], rows[|rows| - 1];
    if z.key != rows[i].key {
      assert front[i] == rows[i] && front[j] == rows[j];
      NotLast(front, i, j);
    }
  }

  /** Main result. After synchronising indicators or entities there is one row for each key of the new
      object and no other row, exactly when the stored rows had distinct keys. */
  lemma OneRowPerKeyIff(rows: seq<Row>, ks: seq<Key>, created: seq<Row>)
    requires Distinct(rows) && Distinct(ks) && Created(created, rows, ks)
    ensures Exact(Unstale(rows, rows, ks) + created, ks) <==> DistinctKeys(rows)
  {
    if DistinctKeys(rows) {
      DistinctEndsExact(rows, ks, created);
    } else {
      var i, j :| 0 <= i < j < |rows| && rows[i].key == rows[j].key;
      ShadowedStays(rows, ks, created, i, j);
    }
  }

  lemma {:induction false} SurvivorsDistinct(xs: seq<Row>, rows: seq<Row>, ks: seq<Key>)
    requires Distinct(xs) && forall x :: x in xs ==> x in rows
    ensures DistinctKeys(Survivors(xs, rows, ks))
  {
    if xs != [] {
      var front, z := xs[..|xs| - 1], xs[|xs| - 1];
      SurvivorsDistinct(front, rows, ks);
      assert z !in front;
    }
  }

  /** Main result. Relationships end with one row for each key even when they start with duplicates. */
  lemma RelationshipsExact(rows: seq<Row>, ks: seq<Key>, created: seq<Row>)
    requires Distinct(rows) && Distinct(ks) && Created(created, rows, ks)
    ensures Exact(Survivors(rows, rows, ks) + created, ks)
  {
    var kept := Survivors(rows, rows, ks);
    SurvivorsDistinct(rows, rows, ks);
    CreatedMeaning(created, rows, ks);
    JoinDistinct(kept, created);
    forall k | k in ks
      ensures HasKey(kept + created, k)
    {
      JoinHasKey(kept, created, k);
      if HasKey(rows, k) {
        var r := LastOf(rows, k);
        assert r in kept;
        var j :| 0 <= j < |kept| && kept[j] == r;
        assert kept[j].key == k;
      }
    }
  }

  lemma {:induction false} NothingNew(rows: seq<Row>, ks: seq<Key>)
    requires forall k :: k in ks ==> HasKey(rows, k)
    ensures NewKeys(rows, ks) == []
  {
    if ks != [] {
      var front := ks[..|ks| - 1];
      assert forall k :: k in front ==> k in ks;
      NothingNew(rows, front);
    }
  }

  lemma {:induction false} NothingStale(xs: seq<Row>, rows: seq<Row>, ks: seq<Key>)
    requires forall x :: x in xs ==> x.key in ks
    ensures Unstale(xs, rows, ks) == xs
  {
    if xs != [] {
      var front, z := xs[..|xs| - 1], xs[|xs| - 1];
      assert xs == front + [z];
      NothingStale(front, rows, ks);
    }
  }

  lemma {:induction false} AllSurvive(xs: seq<Row>, rows: seq<Row>, ks: seq<Key>)
    requires forall x :: x in xs ==> x in rows && x.key in ks && HasKey(rows, x.key) && x == LastOf(rows, x.key)
    ensures Survivors(xs, rows, ks) == xs
  {
    if xs != [] {
      var front, z := xs[..|xs| - 1], xs[|xs| - 1];
      assert xs == front + [z];
      AllSurvive(front, rows, ks);
    }
  }

  /** Main result. Once the rows are exact, another synchronisation creates nothing and removes nothing. */
  lemma SecondSyncKeeps(rows: seq<Row>, ks: seq<Key>)
    requires Exact(rows, ks)
    ensures NewKeys(rows, ks) == [] && Unstale(rows, rows, ks) == rows && Survivors(rows, rows, ks) == rows
  {
    NothingNew(rows, ks);
    NothingStale(rows, rows, ks);
    forall x | x in rows
      ensures HasKey(rows, x.key) && x == LastOf(rows, x.key)
    {
      LastIsOnly(rows, x);
    }
    AllSurvive(rows, rows, ks);
  }

  /** Main result. Of the rows of a surviving key the last one stays the same row, and when keys are
      distinct every row of a surviving key does. */
  lemma SurvivingRowsKept(rows: seq<Row>, ks: seq<Key>, r: Row)
    requires r in rows
    ensures r.key in ks && HasKey(rows, r.key) && r == LastOf(rows, r.key) ==>
              r in Unstale(rows, rows, ks) && r in Survivors(rows, rows, ks)
    ensures DistinctKeys(rows) ==>
              && (r in Unstale(rows, rows, ks) <==> r.key in ks)
              && (r in Survivors(rows, rows, ks) <==> r.key in ks)
  {
    if DistinctKeys(rows) {
      LastIsOnly(rows, r);
    }
  }

  // ---------------------------------------------------------------- one event over time

  /** `after` is what synchronising `before` with the keys leaves, for indicators and entities or for
      relationships. */
  predicate Follows(before: seq<Row>, ks: seq<Key>, after: seq<Row>, relationships: bool) {
    var rest := Remaining(before, ks, relationships);
    rest <= after && Created(after[|rest|..], before, ks)
  }

  function Remaining(rows: seq<Row>, ks: seq<Key>, relationships: bool): seq<Row> {
    if relationships then Survivors(rows, rows, ks) else Unstale(rows, rows, ks)
  }

  /** The rows of one event, from its creation on: before and after each synchronisation. */
  ghost predicate Lineage(states: seq<seq<Row>>, kss: seq<seq<Key>>, relationships: bool) {
    && |states| == |kss| + 1 && states[0] == []
    && forall n :: 0 <= n < |kss| ==> Distinct(kss[n]) && Follows(states[n], kss[n], states[n + 1], relationships)
  }

  lemma DistinctRows(rows: seq<Row>)
    requires DistinctKeys(rows)
    ensures Distinct(rows)
  {
  }

  lemma FollowsExactly(before: seq<Row>, ks: seq<Key>, after: seq<Row>, relationships: bool)
    requires DistinctKeys(before) && Distinct(ks) && Follows(before, ks, after, relationships)
    ensures Exact(after, ks)
  {
    var rest := Remaining(before, ks, relationships);
    var created := after[|rest|..];
    assert after == rest + created;
    DistinctRows(before);
    DistinctEndsExact(before, ks, created);
    RelationshipsExact(before, ks, created);
  }

  /** Main result. The rows of an event start empty, so they never share a key, and every synchronisation
      leaves one row for each key of the new object and no other row. */
  lemma {:induction false} AlwaysExact(states: seq<seq<Row>>, kss: seq<seq<Key>>, relationships: bool, n: nat)
    requires Lineage(states, kss, relationships) && n < |kss|
    ensures DistinctKeys(states[n]) && Exact(states[n + 1], kss[n])
  {
    if n > 0 {
      AlwaysExact(states, kss, relationships, n - 1);
    }
    FollowsExactly(states[n], kss[n], states[n + 1], relationships);
  }

  // ---------------------------------------------------------------- the program

  /** The lookup dictionary: the last row of each key. */
  method IndexLast(rows: seq<Row>) returns (existing: map<Key, Row>)
    ensures forall k :: k in existing <==> HasKey(rows, k)
    ensures forall k :: k in existing ==> existing[k] == LastOf(rows, k)
  {
    existing := map[];
    for n := 0 to |rows|
      invariant forall k :: k in existing <==> HasKey(rows[..n], k)
      invariant forall k :: k in existing ==> existing[k] == LastOf(rows[..n], k)
    {
      NextRow(rows, n);
      existing := existing[rows[n].key := rows[n]];
    }
    assert rows[..|rows|] == rows;
  }

  lemma NextRow(rows: seq<Row>, n: nat)
    requires n < |rows|
    ensures forall k :: HasKey(rows[..n + 1], k) <==> k == rows[n].key || HasKey(rows[..n], k)
    ensures forall k :: HasKey(rows[..n + 1], k) ==>
              LastOf(rows[..n + 1], k) == if k == rows[n].key then rows[n] else LastOf(rows[..n], k)
  {
    var a, b := rows[..n], rows[..n + 1];
    assert b == a + [rows[n]] && b[..n] == a;
    forall k
      ensures HasKey(b, k) <==> k == rows[n].key || HasKey(a, k)
    {
      JoinHasKey(a, [rows[n]], k);
      assert [rows[n]][0].key == rows[n].key;
    }
    assert b[|b| - 1] == rows[n] && b[..|b| - 1] == a;
    forall k | HasKey(b, k)
      ensures LastOf(b, k) == if k == rows[n].key then rows[n] else LastOf(a, k)
    {
    }
  }

  lemma NextDesired(items: seq<Item>, n: nat)
    requires n < |items|
    ensures Desired(items[..n + 1]) ==
              if items[n].key in Desired(items[..n]) then Desired(items[..n])
              else Desired(items[..n]) + [items[n].key]
    ensures exists i :: 0 <= i < |items| && items[i].key == items[n].key
    ensures items[n].key !in Desired(items[..n]) ==> FirstPayload(items, items[n].key) == items[n].payload
  {
    assert items[..n + 1][..n] == items[..n];
    if items[n].key !in Desired(items[..n]) {
      forall i | 0 <= i < n
        ensures items[i].key != items[n].key
      {
        assert items[..n][i].key in Desired(items[..n]);
      }
      FirstAt(items, n);
    }
  }

  lemma {:induction false} FirstAt(items: seq<Item>, n: nat)
    requires n < |items| && forall i :: 0 <= i < n ==> items[i].key != items[n].key
    ensures FirstPayload(items, items[n].key) == items[n].payload
  {
    if n > 0 {
      assert forall i :: 0 <= i < n - 1 ==> items[1..][i] == items[i + 1];
      FirstAt(items[1..], n - 1);
    }
  }

  /** `list.remove`: drops the first occurrence. */
  function RemoveFirst(xs: seq<Row>, r: Row): seq<Row> {
    if xs == [] then [] else if xs[0] == r then xs[1..] else [xs[0]] + RemoveFirst(xs[1..], r)
  }

  function Drop(xs: seq<Row>, gone: set<Row>): seq<Row> {
    if xs == [] then [] else (if xs[0] in gone then [] else [xs[0]]) + Drop(xs[1..], gone)
  }

  lemma {:induction false} RemoveDrops(xs: seq<Row>, gone: set<Row>, r: Row, tail: seq<Row>)
    requires Distinct(xs) && r in xs && r !in gone
    ensures RemoveFirst(Drop(xs, gone) + tail, r) == Drop(xs, gone + {r}) + tail
  {
    var z, rest := xs[0], xs[1..];
    if z == r {
      DropOther(rest, gone, r);
      assert Drop(xs, gone) + tail == [z] + (Drop(rest, gone) + tail);
    } else {
      RemoveDrops(rest, gone, r, tail);
      if z in gone {
        assert Drop(xs, gone) == Drop(rest, gone);
      } else {
        assert Drop(xs, gone) + tail == [z] + (Drop(rest, gone) + tail);
      }
    }
  }

  lemma {:induction false} DropOther(xs: seq<Row>, gone: set<Row>, r: Row)
    requires r !in xs
    ensures Drop(xs, gone + {r}) == Drop(xs, gone)
  {
    if xs != [] {
      DropOther(xs[1..], gone, r);
    }
  }

  lemma {:induction false} DropNone(xs: seq<Row>)
    ensures Drop(xs, {}) == xs
  {
    if xs != [] {
      DropNone(xs[1..]);
    }
  }

  lemma Reassociate(a: seq<Row>, b: seq<Row>, c: seq<Row>)
    ensures a + (b + c) == (a + b) + c
  {
  }

  lemma {:induction false} DropConcat(a: seq<Row>, b: seq<Row>, gone: set<Row>)
    ensures Drop(a + b, gone) == Drop(a, gone) + Drop(b, gone)
  {
    if a == [] {
      assert a + b == b;
    } else {
      DropConcat(a[1..], b, gone);
      var ab, head := a + b, if a[0] in gone then [] else [a[0]];
      assert ab[0] == a[0] && ab[1..] == a[1..] + b;
      assert Drop(ab, gone) == head + Drop(a[1..] + b, gone);
      Reassociate(head, Drop(a[1..], gone), Drop(b, gone));
    }
  }

  lemma {:induction false} DropIsUnstale(xs: seq<Row>, rows: seq<Row>, ks: seq<Key>, gone: set<Row>)
    requires forall r :: r in xs ==> (r in gone <==> Stale(rows, ks, r))
    ensures Drop(xs, gone) == Unstale(xs, rows, ks)
  {
    if xs != [] {
      var front, z := xs[..|xs| - 1], xs[|xs| - 1];
      DropIsUnstale(front, rows, ks, gone);
      DropConcat(front, [z], gone);
      assert xs == front + [z] && Drop([z], gone) == if z in gone then [] else [z];
    }
  }

  lemma StaleUnique(rows: seq<Row>, ks: seq<Key>, a: Row, b: Row)
    requires Stale(rows, ks, a) && Stale(rows, ks, b) && a.key == b.key
    ensures a == b
  {
  }

  /** Removes the rows left in the dictionary. */
  method RemoveStale(rows0: seq<Row>, created: seq<Row>, stale: map<Key, Row>, ghost ks: seq<Key>)
    returns (rows: seq<Row>)
    requires Distinct(rows0)
    requires forall k :: k in stale ==> stale[k] in rows0 && stale[k].key == k && Stale(rows0, ks, stale[k])
    requires forall r :: r in rows0 && Stale(rows0, ks, r) ==> r.key in stale
    ensures rows == Unstale(rows0, rows0, ks) + created
  {
    hide Stale, Drop, RemoveFirst, Distinct;
    rows := rows0 + created;
    var left := stale;
    ghost var gone: set<Row> := {};
    DropNone(rows0);
    while left != map[]
      invariant rows == Drop(rows0, gone) + created
      invariant forall k :: k in left ==> k in stale && left[k] == stale[k] && left[k] !in gone
      invariant forall k :: k in stale && k !in left ==> stale[k] in gone
      invariant forall r :: r in gone ==> r in rows0 && Stale(rows0, ks, r)
      decreases |left|
    {
      var k :| k in left;
      RemoveDrops(rows0, gone, left[k], created);
      rows := RemoveFirst(rows, left[k]);
      gone := gone + {left[k]};
      left := left - {k};
    }
    forall r | r in rows0 && Stale(rows0, ks, r)
      ensures r in gone
    {
      StaleUnique(rows0, ks, r, stale[r.key]);
    }
    DropIsUnstale(rows0, rows0, ks, gone);
  }

  /** Row r is the one the synchronisation updates for its key. */
  predicate Updated(rows: seq<Row>, ks: seq<Key>, r: Row) {
    r.key in ks && HasKey(rows, r.key) && r == LastOf(rows, r.key)
  }

  /** State of the item loop: what is left in the dictionary, what was created, what was written. */
  ghost predicate Synced(rows0: seq<Row>, items: seq<Item>, n: nat, desired: seq<Key>, existing: map<Key, Row>,
                         created: seq<Row>)
    reads rows0, created
    requires n <= |items|
  {
    && desired == Desired(items[..n])
    && (forall k :: k in existing <==> HasKey(rows0, k) && k !in desired)
    && (forall k :: k in existing ==> existing[k] == LastOf(rows0, k))
    && Created(created, rows0, desired)
    && (forall k :: k in desired ==> exists i :: 0 <= i < |items| && items[i].key == k)
    && (forall k :: k in desired && HasKey(rows0, k) ==> LastOf(rows0, k).payload == FirstPayload(items, k))
    && (forall i :: 0 <= i < |created| ==>
          created[i].key in desired && created[i].payload == FirstPayload(items, created[i].key))
  }

  lemma NewKeysLast(rows: seq<Row>, ks: seq<Key>, k: Key)
    ensures NewKeys(rows, ks + [k]) == NewKeys(rows, ks) + if HasKey(rows, k) then [] else [k]
  {
    assert (ks + [k])[..|ks|] == ks;
  }

  /** A new key found in the dictionary: its row is rewritten in place. */
  method UpdateRow(rows0: seq<Row>, items: seq<Item>, n: nat, desired0: seq<Key>, existing0: map<Key, Row>,
                   ghost created: seq<Row>)
    returns (desired: seq<Key>, existing: map<Key, Row>)
    requires n < |items| && items[n].key !in desired0 && items[n].key in existing0
    requires Synced(rows0, items, n, desired0, existing0, created)
    requires forall r :: r in created ==> r !in rows0
    modifies existing0[items[n].key]
    ensures Synced(rows0, items, n + 1, desired, existing, created) && desired == desired0 + [items[n].key]
  {
    hide LastOf, HasKey, FirstPayload, NewKeys, Desired;
    NextDesired(items, n);
    NewKeysLast(rows0, desired0, items[n].key);
    existing0[items[n].key].payload := items[n].payload;
    desired, existing := desired0 + [items[n].key], existing0 - {items[n].key};
  }

  /** A new key nobody holds: a row is created. */
  method CreateRow(rows0: seq<Row>, items: seq<Item>, n: nat, desired0: seq<Key>, existing: map<Key, Row>,
                   created0: seq<Row>)
    returns (desired: seq<Key>, created: seq<Row>)
    requires n < |items| && items[n].key !in desired0 && items[n].key !in existing
    requires Synced(rows0, items, n, desired0, existing, created0)
    ensures Synced(rows0, items, n + 1, desired, existing, created) && desired == desired0 + [items[n].key]
    ensures |created| == |created0| + 1 && created[..|created0|] == created0 && fresh(created[|created0|])
  {
    hide LastOf, HasKey, FirstPayload, NewKeys, Desired;
    NextDesired(items, n);
    NewKeysLast(rows0, desired0, items[n].key);
    var record := new Row(items[n].key, items[n].payload);
    desired, created := desired0 + [items[n].key], created0 + [record];
  }

  lemma StillSynced(rows0: seq<Row>, items: seq<Item>, n: nat, desired: seq<Key>, existing: map<Key, Row>,
                    created: seq<Row>)
    requires n < |items| && items[n].key in desired && Synced(rows0, items, n, desired, existing, created)
    ensures Synced(rows0, items, n + 1, desired, existing, created)
  {
    hide LastOf, HasKey, FirstPayload, NewKeys, Desired;
    NextDesired(items, n);
  }

  /** `_sync_indicators` and `_sync_entities` on one collection. */
  method SyncRows(rows0: seq<Row>, items: seq<Item>) returns (rows: seq<Row>, created: seq<Row>)
    requires Distinct(rows0)
    modifies rows0
    ensures fresh(created) && Created(created, rows0, Desired(items))
    ensures rows == Unstale(rows0, rows0, Desired(items)) + created
    ensures forall k :: k in Desired(items) ==> exists i :: 0 <= i < |items| && items[i].key == k
    ensures forall r :: (r in rows0 && Updated(rows0, Desired(items), r)) || r in created ==>
              r.key in Desired(items) && r.payload == FirstPayload(items, r.key)
    ensures forall r :: r in rows0 && !Updated(rows0, Desired(items), r) ==> r.payload == old(r.payload)
  {
    hide LastOf, FirstPayload, NewKeys, Desired, Unstale, Distinct;
    var existing := IndexLast(rows0);
    var desired: seq<Key> := [];
    created := [];
    NothingSynced(rows0, items, existing);
    for n := 0 to |items|
      invariant fresh(created)
      invariant Synced(rows0, items, n, desired, existing, created)
      invariant forall r :: r in rows0 && !Updated(rows0, desired, r) ==> r.payload == old(r.payload)
    {
      if items[n].key in desired {
        StillSynced(rows0, items, n, desired, existing, created);
      } else if items[n].key in existing {
        desired, existing := UpdateRow(rows0, items, n, desired, existing, created);
      } else {
        desired, created := CreateRow(rows0, items, n, desired, existing, created);
      }
    }
    assert items[..|items|] == items;
    LeftAreStale(rows0, items, desired, existing, created);
    rows := RemoveStale(rows0, created, existing, desired);
  }

  /** Main result. The same object again: the second synchronisation leaves the same rows, creates none,
      and every payload is what the first one wrote. */
  method SyncRowsTwice(rows0: seq<Row>, items: seq<Item>) returns (rows: seq<Row>, again: seq<Row>, created: seq<Row>)
    requires DistinctKeys(rows0)
    modifies rows0
    ensures Exact(rows, Desired(items)) && again == rows && created == []
    ensures forall k :: k in Desired(items) ==> exists i :: 0 <= i < |items| && items[i].key == k
    ensures forall r :: r in rows ==> r.payload == FirstPayload(items, r.key)
  {
    hide FirstPayload, NewKeys, Desired, Unstale, LastOf, HasKey;
    DistinctRows(rows0);
    var first;
    rows, first := SyncRows(rows0, items);
    DistinctEndsExact(rows0, Desired(items), first);
    ExactIsUpdated(rows, Desired(items));
    SecondSyncKeeps(rows, Desired(items));
    again, created := SyncRows(rows, items);
  }

  /** Every row of an exact list is the one its key finds. */
  lemma ExactIsUpdated(rows: seq<Row>, ks: seq<Key>)
    requires Exact(rows, ks)
    ensures Distinct(rows) && forall r :: r in rows ==> Updated(rows, ks, r)
  {
    DistinctRows(rows);
    forall r | r in rows
      ensures Updated(rows, ks, r)
    {
      LastIsOnly(rows, r);
    }
  }

  lemma NothingSynced(rows0: seq<Row>, items: seq<Item>, existing: map<Key, Row>)
    requires forall k :: k in existing <==> HasKey(rows0, k)
    requires forall k :: k in existing ==> existing[k] == LastOf(rows0, k)
    ensures Synced(rows0, items, 0, [], existing, [])
  {
  }

  lemma LeftAreStale(rows0: seq<Row>, items: seq<Item>, desired: seq<Key>, existing: map<Key, Row>, created: seq<Row>)
    requires Synced(rows0, items, |items|, desired, existing, created)
    ensures forall k :: k in existing ==>
              existing[k] in rows0 && existing[k].key == k && Stale(rows0, desired, existing[k])
    ensures forall r :: r in rows0 && Stale(rows0, desired, r) ==> r.key in existing
  {
  }

  // ---------------------------------------------------------------- relationships

  /** The rows with a key, in order. */
  function RowsWith(rows: seq<Row>, k: Key): (r: seq<Row>)
    ensures forall x :: x in r ==> x in rows && x.key == k
    ensures forall x :: x in rows && x.key == k ==> x in r
    ensures Distinct(rows) ==> Distinct(r)
  {
    if rows == [] then []
    else
      var z := rows[|rows| - 1];
      assert rows == rows[..|rows| - 1] + [z];
      assert Distinct(rows) ==> z !in rows[..|rows| - 1];
      RowsWith(rows[..|rows| - 1], k) + if z.key == k then [z] else []
  }

  lemma {:induction false} LastWith(rows: seq<Row>, k: Key)
    ensures HasKey(rows, k) <==> RowsWith(rows, k) != []
    ensures HasKey(rows, k) ==> LastOf(rows, k) == RowsWith(rows, k)[|RowsWith(rows, k)| - 1]
  {
    hide HasKey, Distinct;
    if rows == [] {
      NoRowHasKey(k);
    } else {
      LastWith(rows[..|rows| - 1], k);
      OneMoreKey(rows, k);
    }
  }

  lemma NoRowHasKey(k: Key)
    ensures !HasKey([], k)
  {
  }

  lemma OneMoreKey(rows: seq<Row>, k: Key)
    requires rows != []
    ensures HasKey(rows, k) <==> HasKey(rows[..|rows| - 1], k) || rows[|rows| - 1].key == k
  {
    var front, z := rows[..|rows| - 1], rows[|rows| - 1];
    assert rows == front + [z];
    JoinHasKey(front, [z], k);
    assert [z][0] == z;
  }

  /** What the dictionary still lists for a key. */
  function Left(rows: seq<Row>, ks: seq<Key>, k: Key): seq<Row> {
    var all := RowsWith(rows, k);
    if k in ks && all != [] then all[..|all| - 1] else all
  }

  lemma NextWith(rows: seq<Row>, n: nat)
    requires n < |rows|
    ensures forall k :: RowsWith(rows[..n + 1], k) == RowsWith(rows[..n], k) + if rows[n].key == k then [rows[n]]
            else []
  {
    assert rows[..n + 1][..n] == rows[..n];
  }

  lemma NoneWith()
    ensures forall k :: RowsWith([], k) == []
  {
  }

  method GroupRows(rows: seq<Row>) returns (existing: map<Key, seq<Row>>)
    ensures forall k :: Listed(existing, k) == RowsWith(rows, k)
  {
    hide RowsWith;
    existing := map[];
    NoneWith();
    assert rows[..0] == [];
    for n := 0 to |rows|
      invariant forall k :: Listed(existing, k) == RowsWith(rows[..n], k)
    {
      NextWith(rows, n);
      existing := Appended(existing, rows[n].key, rows[n]);
    }
    assert rows[..|rows|] == rows;
  }

  /** State of the item loop over relationships. */
  ghost predicate Matched(rows0: seq<Row>, items: seq<Item>, n: nat, desired: seq<Key>, existing: map<Key, seq<Row>>,
                          created: seq<Row>)
    reads rows0, created
    requires n <= |items|
  {
    && desired == Desired(items[..n])
    && (forall k :: Listed(existing, k) == Left(rows0, desired, k))
    && Created(created, rows0, desired)
    && (forall k :: k in desired ==> exists i :: 0 <= i < |items| && items[i].key == k)
    && (forall k :: k in desired && HasKey(rows0, k) ==> LastOf(rows0, k).payload == FirstPayload(items, k))
    && (forall i :: 0 <= i < |created| ==>
          created[i].key in desired && created[i].payload == FirstPayload(items, created[i].key))
  }

  lemma LeftStep(rows: seq<Row>, ks: seq<Key>, key: Key, k: Key)
    requires key !in ks
    ensures Left(rows, ks + [key], k) ==
              if k == key && Left(rows, ks, k) != [] then Left(rows, ks, k)[..|Left(rows, ks, k)| - 1]
                else Left(rows, ks, k)
  {
    hide RowsWith;
    assert k in ks + [key] <==> k in ks || k == key;
  }

  lemma LeftNew(rows: seq<Row>, ks: seq<Key>, k: Key)
    requires k !in ks
    ensures Left(rows, ks, k) != [] <==> HasKey(rows, k)
    ensures HasKey(rows, k) ==> LastOf(rows, k) == Left(rows, ks, k)[|Left(rows, ks, k)| - 1]
  {
    LastWith(rows, k);
  }

  /** A listed relationship is popped and rewritten in place. */
  method PopMatch(rows0: seq<Row>, items: seq<Item>, n: nat, desired0: seq<Key>, existing0: map<Key, seq<Row>>,
                  ghost created: seq<Row>)
    returns (desired: seq<Key>, existing: map<Key, seq<Row>>)
    requires n < |items| && items[n].key !in desired0 && Listed(existing0, items[n].key) != []
    requires Matched(rows0, items, n, desired0, existing0, created)
    requires forall r :: r in created ==> r !in rows0
    modifies rows0
    ensures Matched(rows0, items, n + 1, desired, existing, created) && desired == desired0 + [items[n].key]
    ensures forall r :: r in rows0 && !Updated(rows0, desired, r) ==> r.payload == old(r.payload)
  {
    hide LastOf, HasKey, FirstPayload, NewKeys, Desired, Left;
    var key := items[n].key;
    var matches := Listed(existing0, key);
    NextDesired(items, n);
    NewKeysLast(rows0, desired0, key);
    LeftNew(rows0, desired0, key);
    ListedInRows(rows0, desired0, key);
    var record := matches[|matches| - 1];
    record.payload := items[n].payload;
    desired, existing := desired0 + [key], existing0[key := matches[..|matches| - 1]];
    forall k
      ensures Listed(existing, k) == Left(rows0, desired, k)
    {
      LeftStep(rows0, desired0, key, k);
    }
  }

  method CreateRelationship(rows0: seq<Row>, items: seq<Item>, n: nat, desired0: seq<Key>,
                            existing: map<Key, seq<Row>>, created0: seq<Row>)
    returns (desired: seq<Key>, created: seq<Row>)
    requires n < |items| && items[n].key !in desired0 && Listed(existing, items[n].key) == []
    requires Matched(rows0, items, n, desired0, existing, created0)
    ensures Matched(rows0, items, n + 1, desired, existing, created) && desired == desired0 + [items[n].key]
    ensures |created| == |created0| + 1 && created[..|created0|] == created0 && fresh(created[|created0|])
  {
    hide LastOf, HasKey, FirstPayload, NewKeys, Desired, Left;
    var key := items[n].key;
    NextDesired(items, n);
    NewKeysLast(rows0, desired0, key);
    LeftNew(rows0, desired0, key);
    var record := new Row(key, items[n].payload);
    desired, created := desired0 + [key], created0 + [record];
    forall k
      ensures Listed(existing, k) == Left(rows0, desired, k)
    {
      LeftStep(rows0, desired0, key, k);
    }
  }

  lemma StillMatched(rows0: seq<Row>, items: seq<Item>, n: nat, desired: seq<Key>, existing: map<Key, seq<Row>>,
                     created: seq<Row>)
    requires n < |items| && items[n].key in desired && Matched(rows0, items, n, desired, existing, created)
    ensures Matched(rows0, items, n + 1, desired, existing, created)
  {
    hide LastOf, HasKey, FirstPayload, NewKeys, Desired, Left;
    NextDesired(items, n);
  }

  lemma {:induction false} DropIsSurvivors(xs: seq<Row>, rows: seq<Row>, ks: seq<Key>, gone: set<Row>)
    requires forall x :: x in xs ==> x in rows
    requires forall x :: x in xs ==> (x in gone <==> !Updated(rows, ks, x))
    ensures Drop(xs, gone) == Survivors(xs, rows, ks)
  {
    if xs != [] {
      var front, z := xs[..|xs| - 1], xs[|xs| - 1];
      DropIsSurvivors(front, rows, ks, gone);
      DropConcat(front, [z], gone);
      assert xs == front + [z] && Drop([z], gone) == if z in gone then [] else [z];
    }
  }

  /** A row is listed until the end exactly when the loop did not update it. */
  lemma LeftIsRest(rows: seq<Row>, ks: seq<Key>, r: Row)
    requires Distinct(rows) && r in rows
    ensures r in Left(rows, ks, r.key) <==> !Updated(rows, ks, r)
  {
    LastWith(rows, r.key);
    var all := RowsWith(rows, r.key);
    assert r in all && Distinct(all);
    assert all == all[..|all| - 1] + [all[|all| - 1]];
  }

  lemma LeftDistinct(rows: seq<Row>, ks: seq<Key>, k: Key)
    requires Distinct(rows)
    ensures Distinct(Left(rows, ks, k)) && forall x :: x in Left(rows, ks, k) ==> x in rows && x.key == k
  {
  }

  function Members(list: seq<Row>): set<Row> {
    set r | r in list
  }

  /** Removes every row of one list. */
  method RemoveEach(rows0: seq<Row>, created: seq<Row>, rowsIn: seq<Row>, list: seq<Row>, ghost gone: set<Row>)
    returns (rows: seq<Row>)
    requires Distinct(rows0) && rowsIn == Drop(rows0, gone) + created && Distinct(list)
    requires forall r :: r in list ==> r in rows0 && r !in gone
    ensures rows == Drop(rows0, gone + Members(list)) + created
  {
    hide Drop, RemoveFirst;
    rows := rowsIn;
    assert gone + Members(list[..0]) == gone;
    for n := 0 to |list|
      invariant rows == Drop(rows0, gone + Members(list[..n])) + created
    {
      assert list[..n + 1] == list[..n] + [list[n]] && list[n] !in list[..n];
      assert gone + Members(list[..n + 1]) == gone + Members(list[..n]) + {list[n]};
      RemoveDrops(rows0, gone + Members(list[..n]), list[n], created);
      rows := RemoveFirst(rows, list[n]);
    }
    assert list[..|list|] == list;
  }

  /** Removes the rows left in the lists. */
  method RemoveLeft(rows0: seq<Row>, created: seq<Row>, existing: map<Key, seq<Row>>, ghost ks: seq<Key>)
    returns (rows: seq<Row>)
    requires Distinct(rows0) && forall k :: Listed(existing, k) == Left(rows0, ks, k)
    ensures rows == Survivors(rows0, rows0, ks) + created
  {
    hide Drop, Left, Updated, Distinct;
    rows := rows0 + created;
    var left := existing;
    ghost var gone: set<Row> := {};
    DropNone(rows0);
    while left != map[]
      invariant rows == Drop(rows0, gone) + created
      invariant forall k :: k in left ==> k in existing && left[k] == existing[k]
      invariant forall r :: r in gone ==> r in rows0 && r.key !in left && r in Left(rows0, ks, r.key)
      invariant forall r :: r in rows0 && r.key !in left && r in Left(rows0, ks, r.key) ==> r in gone
      decreases |left|
    {
      var k :| k in left;
      assert left[k] == Listed(existing, k);
      LeftDistinct(rows0, ks, k);
      rows := RemoveEach(rows0, created, rows, left[k], gone);
      gone := gone + Members(left[k]);
      left := left - {k};
    }
    forall r | r in rows0
      ensures r in gone <==> !Updated(rows0, ks, r)
    {
      LeftIsRest(rows0, ks, r);
    }
    DropIsSurvivors(rows0, rows0, ks, gone);
  }

  /** `_sync_relationships` */
  method SyncRelationships(rows0: seq<Row>, items: seq<Item>) returns (rows: seq<Row>, created: seq<Row>)
    requires Distinct(rows0)
    modifies rows0
    ensures fresh(created) && Created(created, rows0, Desired(items))
    ensures rows == Survivors(rows0, rows0, Desired(items)) + created
    ensures forall k :: k in Desired(items) ==> exists i :: 0 <= i < |items| && items[i].key == k
    ensures forall r :: (r in rows0 && Updated(rows0, Desired(items), r)) || r in created ==>
              r.key in Desired(items) && r.payload == FirstPayload(items, r.key)
    ensures forall r :: r in rows0 && !Updated(rows0, Desired(items), r) ==> r.payload == old(r.payload)
  {
    hide LastOf, FirstPayload, NewKeys, Desired, Distinct, Left, RowsWith, HasKey, Survivors, Listed, Created;
    var existing := GroupRows(rows0);
    var desired: seq<Key> := [];
    created := [];
    NothingMatched(rows0, items, existing);
    for n := 0 to |items|
      invariant fresh(created)
      invariant Matched(rows0, items, n, desired, existing, created)
      invariant forall r :: r in rows0 && !Updated(rows0, desired, r) ==> r.payload == old(r.payload)
    {
      if items[n].key in desired {
        StillMatched(rows0, items, n, desired, existing, created);
      } else if Listed(existing, items[n].key) != [] {
        desired, existing := PopMatch(rows0, items, n, desired, existing, created);
      } else {
        desired, created := CreateRelationship(rows0, items, n, desired, existing, created);
      }
    }
    assert items[..|items|] == items;
    rows := RemoveLeft(rows0, created, existing, desired);
  }

  /** The same for relationships, from any rows. */
  method SyncRelationshipsTwice(rows0: seq<Row>, items: seq<Item>)
    returns (rows: seq<Row>, again: seq<Row>, created: seq<Row>)
    requires Distinct(rows0)
    modifies rows0
    ensures Exact(rows, Desired(items)) && again == rows && created == []
    ensures forall k :: k in Desired(items) ==> exists i :: 0 <= i < |items| && items[i].key == k
    ensures forall r :: r in rows ==> r.payload == FirstPayload(items, r.key)
  {
    hide FirstPayload, NewKeys, Desired, Survivors, LastOf, HasKey;
    var first;
    rows, first := SyncRelationships(rows0, items);
    RelationshipsExact(rows0, Desired(items), first);
    ExactIsUpdated(rows, Desired(items));
    SecondSyncKeeps(rows, Desired(items));
    again, created := SyncRelationships(rows, items);
  }

  lemma ListedInRows(rows: seq<Row>, ks: seq<Key>, k: Key)
    ensures forall x :: x in Left(rows, ks, k) ==> x in rows
  {
  }

  lemma NothingMatched(rows0: seq<Row>, items: seq<Item>, existing: map<Key, seq<Row>>)
    requires forall k :: Listed(existing, k) == RowsWith(rows0, k)
    ensures Matched(rows0, items, 0, [], existing, [])
  {
  }
}
