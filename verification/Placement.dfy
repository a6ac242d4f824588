/** The general allocation after the reservations: strata in order, groups one by one against the targets. */
module Placement {
  import opened Targets
  import opened Sequences
  import opened Allocation

  // ---------------------------------------------------------------- counting an assignment

  function Holders(a: Assignment, s: Split): set<string> {
    set id | id in a && a[id] == s
  }

  /** `Counter(assignment.values())`. */
  function CountsOf(a: Assignment): Counts {
    Counts(|Holders(a, Train)|, |Holders(a, Valid)|, |Holders(a, Test)|)
  }

  lemma HoldersGrow(a: Assignment, id: string, s: Split, t: Split)
    requires id !in a
    ensures |Holders(a[id := s], t)| == |Holders(a, t)| + if s == t then 1 else 0
  {
    assert Holders(a[id := s], t) == if s == t then Holders(a, t) + {id} else Holders(a, t);
  }

  lemma CountsGrow(a: Assignment, id: string, s: Split)
    requires id !in a
    ensures CountsOf(a[id := s]) == CountsOf(a).With(s, CountsOf(a).At(s) + 1)
  {
    HoldersGrow(a, id, s, Train);
    HoldersGrow(a, id, s, Valid);
    HoldersGrow(a, id, s, Test);
  }

  lemma CountsAddUp(a: Assignment)
    ensures CountsOf(a).Sum() == |a.Keys|
  {
    var x, y, z := Holders(a, Train), Holders(a, Valid), Holders(a, Test);
    assert a.Keys == x + y + z && x !! y && (x + y) !! z;
  }

  /** A count never shrinks as the assignment grows. */
  lemma CountsMonotone(a: Assignment, b: Assignment, s: Split)
    requires Extends(a, b)
    ensures |Holders(a, s)| <= |Holders(b, s)|
  {
    assert Holders(a, s) <= Holders(b, s);
    SubsetSmaller(Holders(a, s), Holders(b, s));
  }

  lemma {:induction false} SubsetSmaller<T>(a: set<T>, b: set<T>)
    requires a <= b
    ensures |a| <= |b|
    ensures a != b ==> |a| < |b|
    decreases a
  {
    if x :| x in a {
      SubsetSmaller(a - {x}, b - {x});
    }
  }

  lemma {:induction false} DistinctSize(s: seq<string>)
    requires Distinct(s)
    ensures |set x | x in s| == |s|
  {
    if s != [] {
      var front, z := s[..|s| - 1], s[|s| - 1];
      DistinctSize(front);
      assert (set x | x in s) == (set x | x in front) + {z};
    }
  }

  // ---------------------------------------------------------------- choosing a split

  datatype Placed = Placed(assignment: Assignment, counts: Counts, local: Counts, fallback: bool)

  function Open(counts: Counts, targets: Counts, s: Split): (r: seq<Split>)
    ensures r == [] <==> counts.At(s) >= targets.At(s)
  {
    if counts.At(s) < targets.At(s) then [s] else []
  }

  /** The splits below their target, or all of them when there is none. */
  function Choices(counts: Counts, targets: Counts): (c: seq<Split>)
    ensures |c| > 0
    ensures forall s :: s in c <==> counts.At(s) < targets.At(s) || Full(counts, targets)
  {
    var open := Open(counts, targets, Train) + Open(counts, targets, Valid) + Open(counts, targets, Test);
    assert Full(counts, targets) <==> open == [];
    assert SPLITS[0] == Train && SPLITS[1] == Valid && SPLITS[2] == Test;
    if open == [] then SPLITS else open
  }

  predicate Full(counts: Counts, targets: Counts) {
    forall s: Split :: counts.At(s) >= targets.At(s)
  }

  /** The key of s is larger than that of t: local room, then global room, then the tie hash. */
  predicate Prefers(p: Placed, local: Counts, targets: Counts, tie: Split -> string, s: Split, t: Split) {
    var ls, lt := local.At(s) - p.local.At(s), local.At(t) - p.local.At(t);
    var gs, gt := targets.At(s) - p.counts.At(s), targets.At(t) - p.counts.At(t);
    ls > lt || (ls == lt && (gs > gt || (gs == gt && !StringLe(tie(s), tie(t)))))
  }

  /** The first split with the largest key. */
  function Best(p: Placed, local: Counts, targets: Counts, tie: Split -> string, choices: seq<Split>): (r: Split)
    requires |choices| > 0
    ensures r in choices
    ensures forall s :: s in choices ==> !Prefers(p, local, targets, tie, s, r)
  {
    var z := choices[|choices| - 1];
    if |choices| == 1 then NotPreferred(p, local, targets, tie, z, z); z
    else
      var b := Best(p, local, targets, tie, choices[..|choices| - 1]);
      assert choices == choices[..|choices| - 1] + [z];
      NotPreferred(p, local, targets, tie, b, z);
      if Prefers(p, local, targets, tie, z, b) then z else b
  }

  /** Larger keys are larger than everything below. */
  lemma NotPreferred(p: Placed, local: Counts, targets: Counts, tie: Split -> string, b: Split, z: Split)
    ensures !Prefers(p, local, targets, tie, z, z)
    ensures Prefers(p, local, targets, tie, z, b) ==>
              forall s :: !Prefers(p, local, targets, tie, s, b) ==> !Prefers(p, local, targets, tie, s, z)
  {
    StringTotal(tie(z), tie(z));
    forall s | Prefers(p, local, targets, tie, z, b) && !Prefers(p, local, targets, tie, s, b)
      ensures !Prefers(p, local, targets, tie, s, z)
    {
      StringTotal(tie(z), tie(b));
      if StringLe(tie(s), tie(b)) && StringLe(tie(b), tie(z)) {
        StringChains(tie(s), tie(b), tie(z));
      }
    }
  }

  function Tie(h: Hashes, id: string): Split -> string {
    s => h.tie(id, s)
  }

  function Place(p: Placed, local: Counts, targets: Counts, h: Hashes, id: string): Placed {
    var s := Best(p, local, targets, Tie(h, id), Choices(p.counts, targets));
    Placed(p.assignment[id := s], p.counts.With(s, p.counts.At(s) + 1), p.local.With(s, p.local.At(s) + 1),
           p.fallback || Full(p.counts, targets))
  }

  /** The first n members of a stratum have been placed. */
  function PlaceMembers(p: Placed, members: seq<string>, local: Counts, targets: Counts, h: Hashes, n: nat): Placed
    requires n <= |members|
  {
    if n == 0 then p else Place(PlaceMembers(p, members, local, targets, h, n - 1), local, targets, h, members[n - 1])
  }

  // ---------------------------------------------------------------- strata

  function StratumOf(g: Group): Stratum {
    Stratum(g.types, g.bin)
  }

  /** Ids without a reservation in a stratum, in insertion order. */
  function MembersOf(ids: seq<string>, byId: map<string, Group>, a: Assignment, key: Stratum): (r: seq<string>)
    requires Indexed(ids, byId)
    ensures forall id :: id in r <==> id in ids && id !in a && StratumOf(byId[id]) == key
  {
    if ids == [] then []
    else
      var id := ids[|ids| - 1];
      assert ids == ids[..|ids| - 1] + [id];
      MembersOf(ids[..|ids| - 1], byId, a, key) + if id !in a && StratumOf(byId[id]) == key then [id] else []
  }

  lemma {:induction false} MembersDistinct(ids: seq<string>, byId: map<string, Group>, a: Assignment, key: Stratum)
    requires Indexed(ids, byId) && Distinct(ids)
    ensures Distinct(MembersOf(ids, byId, a, key))
  {
    if ids != [] {
      MembersDistinct(ids[..|ids| - 1], byId, a, key);
    }
  }

  /** The keys of `strata`, in insertion order. */
  function Strata(ids: seq<string>, byId: map<string, Group>, a: Assignment): (r: seq<Stratum>)
    requires Indexed(ids, byId)
    ensures Distinct(r)
    ensures forall i :: 0 <= i < |ids| && ids[i] !in a ==> StratumOf(byId[ids[i]]) in r
  {
    if ids == [] then []
    else
      var front, id := Strata(ids[..|ids| - 1], byId, a), ids[|ids| - 1];
      assert forall i :: 0 <= i < |ids| - 1 ==> ids[..|ids| - 1][i] == ids[i];
      if id in a || StratumOf(byId[id]) in front then front else front + [StratumOf(byId[id])]
  }

  predicate TypesLe(a: seq<string>, b: seq<string>) {
    a == [] || (b != [] && if a[0] == b[0] then TypesLe(a[1..], b[1..]) else StringLe(a[0], b[0]))
  }

  /** By length bin, then by entity types. */
  predicate StratumLe(x: Stratum, y: Stratum) {
    if x.bin == y.bin then TypesLe(x.types, y.types) else StringLe(x.bin, y.bin)
  }

  function StrataOrder(ids: seq<string>, byId: map<string, Group>, a: Assignment): seq<Stratum>
    requires Indexed(ids, byId)
  {
    Sort(Strata(ids, byId, a), StratumLe)
  }

  function MemberLe(h: Hashes, key: Stratum): (string, string) -> bool {
    (x, y) => StringLe(h.member(key, x), h.member(key, y))
  }

  function Members(ids: seq<string>, byId: map<string, Group>, a: Assignment, h: Hashes, key: Stratum): seq<string>
    requires Indexed(ids, byId)
  {
    Sort(MembersOf(ids, byId, a, key), MemberLe(h, key))
  }

  /** The first n strata have been placed, starting from the reservations a. */
  function PlaceStrata(order: seq<Stratum>, ids: seq<string>, byId: map<string, Group>, a: Assignment,
                       targets: Counts, h: Hashes, n: nat): Placed
    requires Indexed(ids, byId) && n <= |order|
  {
    if n == 0 then Placed(a, CountsOf(a), Counts(0, 0, 0), false)
    else
      var p, members := PlaceStrata(order, ids, byId, a, targets, h, n - 1), Members(ids, byId, a, h, order[n - 1]);
      PlaceMembers(p.(local := Counts(0, 0, 0)), members, TargetCounts(|members|), targets, h, |members|)
  }

  // ---------------------------------------------------------------- what placing keeps

  ghost predicate Counted(p: Placed) {
    p.counts == CountsOf(p.assignment)
  }

  /** No split is beyond its target. */
  predicate Within(counts: Counts, targets: Counts) {
    forall s: Split :: counts.At(s) <= targets.At(s)
  }

  /** Within the targets and never without a split below its target. */
  predicate OnTrack(p: Placed, targets: Counts) {
    Within(p.counts, targets) && !p.fallback
  }

  lemma FullIsSum(counts: Counts, targets: Counts)
    requires Within(counts, targets) && counts.Sum() < targets.Sum()
    ensures !Full(counts, targets)
  {
    assert counts.At(Train) == counts.train && counts.At(Valid) == counts.valid && counts.At(Test) == counts.test;
    assert targets.At(Train) == targets.train && targets.At(Valid) == targets.valid && targets.At(Test) == targets.test;
  }

  lemma AddOne(counts: Counts, targets: Counts, s: Split)
    requires Within(counts, targets) && counts.At(s) < targets.At(s)
    ensures Within(counts.With(s, counts.At(s) + 1), targets)
  {
  }

  /** On track, there is a split below its target as long as a group is left. */
  lemma RoomLeft(a: Assignment, targets: Counts, id: string, all: set<string>)
    requires Within(CountsOf(a), targets) && |all| <= targets.Sum() && a.Keys <= all && id in all && id !in a
    ensures !Full(CountsOf(a), targets)
  {
    hide CountsOf, Full, Within;
    CountsAddUp(a);
    SubsetSmaller(a.Keys, all);
    FullIsSum(CountsOf(a), targets);
  }

  /** One placement: counted stays counted, and on track stays on track while a group is left. */
  lemma PlaceStep(p: Placed, local: Counts, targets: Counts, h: Hashes, id: string, all: set<string>)
    requires Counted(p) && id !in p.assignment && p.assignment.Keys <= all && id in all
    ensures var q := Place(p, local, targets, h, id);
            && Counted(q) && Extends(p.assignment, q.assignment)
            && q.assignment.Keys == p.assignment.Keys + {id}
            && (OnTrack(p, targets) && |all| <= targets.Sum() ==> OnTrack(q, targets))
  {
    hide CountsOf, Full, Within, Best, Choices;
    var s := Best(p, local, targets, Tie(h, id), Choices(p.counts, targets));
    CountsGrow(p.assignment, id, s);
    if OnTrack(p, targets) && |all| <= targets.Sum() {
      RoomLeft(p.assignment, targets, id, all);
      AddOne(p.counts, targets, s);
    }
  }

  /** What a series of placements reaches. */
  ghost predicate Reach(p: Placed, q: Placed, members: seq<string>, n: nat)
    requires n <= |members|
  {
    && Counted(q) && Extends(p.assignment, q.assignment)
    && (forall id :: id in q.assignment <==> id in p.assignment || id in members[..n])
  }

  lemma MembersPlacedStep(p: Placed, q: Placed, r: Placed, members: seq<string>, n: nat)
    requires n < |members| && Reach(p, q, members, n)
    requires Counted(r) && Extends(q.assignment, r.assignment) && r.assignment.Keys == q.assignment.Keys + {members[n]}
    ensures Reach(p, r, members, n + 1)
  {
    hide Counted;
    assert members[..n + 1] == members[..n] + [members[n]];
    forall id
      ensures id in r.assignment <==> id in p.assignment || id in members[..n + 1]
    {
      assert id in r.assignment <==> id in r.assignment.Keys;
    }
  }

  /** The next member is unassigned and nothing outside `all` has been assigned. */
  lemma NextMember(p: Placed, q: Placed, members: seq<string>, n: nat, all: set<string>)
    requires n < |members| && Distinct(members) && Reach(p, q, members, n) && p.assignment.Keys <= all
    requires forall id :: id in members ==> id !in p.assignment && id in all
    ensures Counted(q) && members[n] !in q.assignment && members[n] in all && q.assignment.Keys <= all
  {
    hide Counted;
    assert members[n] !in members[..n] && members[n] in members;
    assert forall id :: id in members[..n] ==> id in members;
  }

  lemma NothingPlaced(p: Placed, members: seq<string>)
    requires Counted(p)
    ensures Reach(p, p, members, 0)
  {
  }

  lemma {:induction false} MembersPlaced(p: Placed, members: seq<string>, local: Counts, targets: Counts, h: Hashes,
                                         n: nat, all: set<string>)
    requires n <= |members| && Counted(p) && Distinct(members) && p.assignment.Keys <= all
    requires forall id :: id in members ==> id !in p.assignment && id in all
    ensures Reach(p, PlaceMembers(p, members, local, targets, h, n), members, n)
    ensures OnTrack(p, targets) && |all| <= targets.Sum() ==>
              OnTrack(PlaceMembers(p, members, local, targets, h, n), targets)
  {
    hide Place, OnTrack, Counted, Distinct, Reach;
    if n == 0 {
      NothingPlaced(p, members);
    } else {
      MembersPlaced(p, members, local, targets, h, n - 1, all);
      var q := PlaceMembers(p, members, local, targets, h, n - 1);
      NextMember(p, q, members, n - 1, all);
      PlaceStep(q, local, targets, h, members[n - 1], all);
      MembersPlacedStep(p, q, Place(q, local, targets, h, members[n - 1]), members, n - 1);
    }
  }

  /** Everything reserved or in one of the first n strata is assigned, nothing else. */
  ghost predicate Reached(order: seq<Stratum>, ids: seq<string>, byId: map<string, Group>, a: Assignment,
                          b: Assignment, n: nat)
    requires Indexed(ids, byId) && n <= |order|
  {
    && (forall id :: id in a ==> id in b)
    && (forall id :: id in b ==> id in a || id in ids)
    && (forall id :: id in ids && id !in a ==> (id in b <==> StratumOf(byId[id]) in order[..n]))
  }

  lemma ReachedStep(order: seq<Stratum>, ids: seq<string>, byId: map<string, Group>, a: Assignment,
                    p: Placed, q: Placed, members: seq<string>, n: nat)
    requires Indexed(ids, byId) && n < |order| && Distinct(order)
    requires Reached(order, ids, byId, a, p.assignment, n) && Reach(p, q, members, |members|)
    requires forall id :: id in members <==> id in ids && id !in a && StratumOf(byId[id]) == order[n]
    ensures Reached(order, ids, byId, a, q.assignment, n + 1)
  {
    hide Counted, StratumOf;
    assert order[..n + 1] == order[..n] + [order[n]] && members[..|members|] == members;
  }

  /** The members of the next stratum are still unassigned. */
  lemma NextStratum(order: seq<Stratum>, ids: seq<string>, byId: map<string, Group>, a: Assignment, b: Assignment,
                    members: seq<string>, n: nat, all: set<string>)
    requires Indexed(ids, byId) && n < |order| && Distinct(order) && Reached(order, ids, byId, a, b, n)
    requires a.Keys <= all && forall id :: id in ids <==> id in all
    requires forall id :: id in members <==> id in ids && id !in a && StratumOf(byId[id]) == order[n]
    ensures b.Keys <= all && forall id :: id in members ==> id !in b && id in all
  {
    hide StratumOf;
    assert order[n] !in order[..n];
  }

  /** Counted, extending the reservations and, from a start within the targets, on track. */
  ghost predicate Progress(a: Assignment, p: Placed, targets: Counts, all: set<string>) {
    && Counted(p) && Extends(a, p.assignment)
    && (Within(CountsOf(a), targets) && |all| <= targets.Sum() ==> OnTrack(p, targets))
  }

  lemma NothingReached(order: seq<Stratum>, ids: seq<string>, byId: map<string, Group>, a: Assignment, targets: Counts,
                       all: set<string>)
    requires Indexed(ids, byId)
    ensures Reached(order, ids, byId, a, a, 0)
    ensures Progress(a, Placed(a, CountsOf(a), Counts(0, 0, 0), false), targets, all)
  {
    hide CountsOf, Within;
  }

  lemma ProgressStep(a: Assignment, p: Placed, q: Placed, members: seq<string>, targets: Counts, all: set<string>)
    requires Progress(a, p, targets, all) && Reach(p.(local := Counts(0, 0, 0)), q, members, |members|)
    requires OnTrack(p, targets) && |all| <= targets.Sum() ==> OnTrack(q, targets)
    ensures Progress(a, q, targets, all)
  {
    hide CountsOf, Within, OnTrack;
  }

  lemma ResetLocal(p: Placed, targets: Counts)
    ensures var q := p.(local := Counts(0, 0, 0));
            (Counted(p) ==> Counted(q)) && (OnTrack(p, targets) <==> OnTrack(q, targets))
              && q.assignment == p.assignment
  {
    hide CountsOf, Within;
  }

  lemma {:induction false} StrataPlaced(order: seq<Stratum>, ids: seq<string>, byId: map<string, Group>, a: Assignment,
                                        targets: Counts, h: Hashes, n: nat, all: set<string>)
    requires Indexed(ids, byId) && n <= |order| && Distinct(order) && Distinct(ids)
    requires a.Keys <= all && forall id :: id in ids <==> id in all
    ensures var p := PlaceStrata(order, ids, byId, a, targets, h, n);
            Progress(a, p, targets, all) && Reached(order, ids, byId, a, p.assignment, n)
  {
    hide CountsOf, Within, OnTrack, Counted, Reach, Reached, PlaceMembers, StratumOf, Distinct, Members;
    if n == 0 {
      NothingReached(order, ids, byId, a, targets, all);
    } else {
      StrataPlaced(order, ids, byId, a, targets, h, n - 1, all);
      var p, key := PlaceStrata(order, ids, byId, a, targets, h, n - 1), order[n - 1];
      var members, start := Members(ids, byId, a, h, key), p.(local := Counts(0, 0, 0));
      var q := PlaceMembers(start, members, TargetCounts(|members|), targets, h, |members|);
      StratumMembers(ids, byId, a, h, key);
      NextStratum(order, ids, byId, a, p.assignment, members, n - 1, all);
      ResetLocal(p, targets);
      MembersPlaced(start, members, TargetCounts(|members|), targets, h, |members|, all);
      ReachedStep(order, ids, byId, a, start, q, members, n - 1);
      ProgressStep(a, p, q, members, targets, all);
    }
  }

  lemma StratumMembers(ids: seq<string>, byId: map<string, Group>, a: Assignment, h: Hashes, key: Stratum)
    requires Indexed(ids, byId) && Distinct(ids)
    ensures Distinct(Members(ids, byId, a, h, key))
    ensures forall id :: id in Members(ids, byId, a, h, key) <==> id in ids && id !in a && StratumOf(byId[id]) == key
  {
    MembersDistinct(ids, byId, a, key);
    SortKeepsDistinct(MembersOf(ids, byId, a, key), MemberLe(h, key));
    forall id
      ensures id in Members(ids, byId, a, h, key) <==> id in MembersOf(ids, byId, a, key)
    {
      SameMembers(MembersOf(ids, byId, a, key), MemberLe(h, key), id);
    }
  }

  // ---------------------------------------------------------------- the choices, told by their keys

  /** A split below its target, or any split when all are full. */
  predicate Eligible(p: Placed, targets: Counts, s: Split) {
    p.counts.At(s) < targets.At(s) || forall t: Split :: p.counts.At(t) >= targets.At(t)
  }

  /** Main result. A group goes to an eligible split with the most room for its stratum; among those to one
      with the most room over all; among those to one with the largest tie hash. */
  lemma PlacedWhereRoomIs(p: Placed, local: Counts, targets: Counts, h: Hashes, id: string, t: Split)
    requires Eligible(p, targets, t)
    ensures var q := Place(p, local, targets, h, id);
            && id in q.assignment
            && var s := q.assignment[id];
               var room, roomT := local.At(s) - p.local.At(s), local.At(t) - p.local.At(t);
               var all, allT := targets.At(s) - p.counts.At(s), targets.At(t) - p.counts.At(t);
               && Eligible(p, targets, s) && room >= roomT
               && (room == roomT ==> all >= allT)
               && (room == roomT && all == allT ==> StringLe(h.tie(id, t), h.tie(id, s)))
               && q.counts == p.counts.With(s, p.counts.At(s) + 1) && q.local == p.local.With(s, p.local.At(s) + 1)
  {
    hide StringLe;
    assert t in Choices(p.counts, targets);
  }

  lemma {:induction false} TypesLeIff(a: seq<string>, b: seq<string>)
    ensures TypesLe(a, b) <==>
              a <= b || exists n :: 0 <= n < |a| && n < |b| && a[..n] == b[..n] && a[n] != b[n] && StringLe(a[n], b[n])
  {
    hide StringLe;
    if a != [] && b != [] && a[0] == b[0] {
      var x, y := a[1..], b[1..];
      TypesLeIff(x, y);
      assert a == [a[0]] + x && b == [b[0]] + y;
      if n :| 0 <= n < |x| && n < |y| && x[..n] == y[..n] && x[n] != y[n] && StringLe(x[n], y[n]) {
        assert a[..n + 1] == [a[0]] + x[..n] && b[..n + 1] == [b[0]] + y[..n];
      }
      if n :| 0 <= n < |a| && n < |b| && a[..n] == b[..n] && a[n] != b[n] && StringLe(a[n], b[n]) {
        assert x[..n - 1] == a[..n][1..] && y[..n - 1] == b[..n][1..];
        assert x[n - 1] == a[n] && y[n - 1] == b[n];
      }
      if a <= b {
        assert b[1..][..|a| - 1] == b[..|a|][1..];
      }
      if x <= y {
        assert b[..|a|] == [b[0]] + y[..|x|];
      }
    } else if a != [] && b != [] {
      assert a[..0] == b[..0];
    }
  }

  lemma {:induction false} TypesTotal(a: seq<string>, b: seq<string>)
    ensures TypesLe(a, b) || TypesLe(b, a)
  {
    if a != [] && b != [] {
      StringTotal(a[0], b[0]);
      if a[0] == b[0] {
        TypesTotal(a[1..], b[1..]);
      }
    }
  }

  lemma {:induction false} TypesChain(a: seq<string>, b: seq<string>, c: seq<string>)
    requires TypesLe(a, b) && TypesLe(b, c)
    ensures TypesLe(a, c)
  {
    hide StringLe;
    if a != [] {
      if a[0] == b[0] == c[0] {
        TypesChain(a[1..], b[1..], c[1..]);
      } else {
        if a[0] != b[0] && b[0] != c[0] {
          StringChains(a[0], b[0], c[0]);
        }
        if a[0] == c[0] && a[0] != b[0] {
          StringAntisymmetric(a[0], b[0]);
        }
      }
    }
  }

  lemma StrataPreorder()
    ensures Preorder(StratumLe)
  {
    hide TypesLe, StringLe;
    forall x, y
      ensures StratumLe(x, y) || StratumLe(y, x)
    {
      TypesTotal(x.types, y.types);
      StringTotal(x.bin, y.bin);
    }
    forall x, y, z | StratumLe(x, y) && StratumLe(y, z)
      ensures StratumLe(x, z)
    {
      StratumChains(x, y, z);
    }
  }

  lemma StratumChains(x: Stratum, y: Stratum, z: Stratum)
    requires StratumLe(x, y) && StratumLe(y, z)
    ensures StratumLe(x, z)
  {
    hide TypesLe, StringLe;
    if x.bin == y.bin == z.bin {
      TypesChain(x.types, y.types, z.types);
    } else {
      if x.bin != y.bin && y.bin != z.bin {
        StringChains(x.bin, y.bin, z.bin);
      }
      if x.bin == z.bin && x.bin != y.bin {
        StringAntisymmetric(x.bin, y.bin);
      }
    }
  }

  /** Main result. Strata are placed by length bin and then by entity types, the members of each by their
      member hash. */
  lemma PlacingOrder(ids: seq<string>, byId: map<string, Group>, a: Assignment, h: Hashes, key: Stratum)
    requires Indexed(ids, byId)
    ensures var order := StrataOrder(ids, byId, a);
            forall i, j :: 0 <= i < j < |order| ==>
              if order[i].bin == order[j].bin then TypesLe(order[i].types, order[j].types)
              else StringLe(order[i].bin, order[j].bin)
    ensures var members := Members(ids, byId, a, h, key);
            && (forall i, j :: 0 <= i < j < |members| ==>
                  StringLe(h.member(key, members[i]), h.member(key, members[j])))
            && (forall id :: id in members <==>
                  id in ids && id !in a && byId[id].types == key.types && byId[id].bin == key.bin)
  {
    hide TypesLe, StringLe, Strata, MembersOf, Sort;
    forall id
      ensures id in Members(ids, byId, a, h, key) <==> id in MembersOf(ids, byId, a, key)
    {
      SameMembers(MembersOf(ids, byId, a, key), MemberLe(h, key), id);
    }
    StrataPreorder();
    SortAscends(Strata(ids, byId, a), StratumLe);
    HashPreorder(x => h.member(key, x));
    var le := MemberLe(h, key);
    assert Preorder(le) by { SamePreorder(x => h.member(key, x), le); }
    SortAscends(MembersOf(ids, byId, a, key), le);
  }

  lemma HashPreorder(f: string -> string)
    ensures Preorder((x, y) => StringLe(f(x), f(y)))
  {
    hide StringLe;
    forall x, y
      ensures StringLe(f(x), f(y)) || StringLe(f(y), f(x))
    {
      StringTotal(f(x), f(y));
    }
    forall x, y, z | StringLe(f(x), f(y)) && StringLe(f(y), f(z))
      ensures StringLe(f(x), f(z))
    {
      StringChains(f(x), f(y), f(z));
    }
  }

  lemma SamePreorder(f: string -> string, le: (string, string) -> bool)
    requires forall x, y :: le(x, y) <==> StringLe(f(x), f(y))
    ensures Preorder(le)
  {
    hide StringLe;
    HashPreorder(f);
    var hashed := (x, y) => StringLe(f(x), f(y));
    assert forall x, y :: le(x, y) <==> hashed(x, y);
  }
}
