/** When the allocation succeeds, and what success means. */
module AllocationResults {
  import opened Targets
  import opened Sequences
  import opened Allocation
  import opened Placement
  import opened AllocateGroups

  /** The indexes of a list of groups. */
  ghost predicate IndexOf(groups: seq<Group>, ids: seq<string>, byId: map<string, Group>) {
    ids == Ids(groups) && byId == Allocation.ById(groups) && Indexed(ids, byId)
  }

  lemma StrataOrderMembers(ids: seq<string>, byId: map<string, Group>, a: Assignment)
    requires Indexed(ids, byId)
    ensures Distinct(StrataOrder(ids, byId, a))
    ensures forall id :: id in ids && id !in a ==> StratumOf(byId[id]) in StrataOrder(ids, byId, a)
  {
    SortKeepsDistinct(Strata(ids, byId, a), StratumLe);
    forall id | id in ids && id !in a
      ensures StratumOf(byId[id]) in StrataOrder(ids, byId, a)
    {
      SameMembers(Strata(ids, byId, a), StratumLe, StratumOf(byId[id]));
    }
  }

  /** Every group is placed, whatever the reservations. */
  lemma EveryIdPlaced(ids: seq<string>, byId: map<string, Group>, a: Assignment, targets: Counts, h: Hashes)
    requires Indexed(ids, byId) && Distinct(ids) && forall id :: id in a ==> id in ids
    ensures var p := Placements(ids, byId, a, targets, h);
            && p.counts == CountsOf(p.assignment) && Extends(a, p.assignment)
            && (forall id :: id in p.assignment <==> id in ids)
            && p.counts.Sum() == |ids|
            && (Within(CountsOf(a), targets) && |ids| <= targets.Sum() ==> OnTrack(p, targets))
  {
    hide CountsOf, Within, OnTrack, Distinct, StratumOf, PlaceStrata;
    var all := set id | id in ids;
    var order, p := StrataOrder(ids, byId, a), Placements(ids, byId, a, targets, h);
    DistinctSize(ids);
    StrataOrderMembers(ids, byId, a);
    StrataPlaced(order, ids, byId, a, targets, h, |order|, all);
    assert order[..|order|] == order;
    assert p.assignment.Keys == all;
    CountsAddUp(p.assignment);
  }

  lemma SameSumWithin(c: Counts, t: Counts)
    requires Within(c, t) && c.Sum() == t.Sum()
    ensures c == t
  {
    assert c.At(Train) <= t.At(Train) && c.At(Valid) <= t.At(Valid) && c.At(Test) <= t.At(Test);
  }

  lemma StartWithin(a: Assignment, b: Assignment)
    requires Extends(a, b)
    ensures Within(CountsOf(a), CountsOf(b))
  {
    CountsMonotone(a, b, Train);
    CountsMonotone(a, b, Valid);
    CountsMonotone(a, b, Test);
  }

  /** Main result. After the reservations, the counts end equal to the targets exactly when the ids
      are unique and the reservations leave every split within its target; then no group was
      placed with every split already full. */
  lemma CountsExactIff(groups: seq<Group>, ids: seq<string>, byId: map<string, Group>, h: Hashes, a: Assignment)
    requires IndexOf(groups, ids, byId) && Reservations(ids, byId, h) == Reserved(a)
    ensures var targets := TargetCounts(|groups|);
            var p := Placements(ids, byId, a, targets, h);
            && (p.counts == targets <==> UniqueIds(groups) && Within(CountsOf(a), targets))
            && (p.counts == targets ==> !p.fallback)
  {
    hide CountsOf, Within, Placements, UniqueIds, TargetCounts;
    var targets := TargetCounts(|groups|);
    IdsMeaning(groups);
    TargetsAddUp(|groups|);
    RepeatsShorten(groups);
    ReservedAreIds(EntityOrder(ids, byId), ids, byId, h, |EntityOrder(ids, byId)|);
    EveryIdPlaced(ids, byId, a, targets, h);
    var p := Placements(ids, byId, a, targets, h);
    if p.counts == targets {
      StartWithin(a, p.assignment);
    } else if UniqueIds(groups) && Within(CountsOf(a), targets) {
      SameSumWithin(p.counts, targets);
    }
  }

  // ---------------------------------------------------------------- reservations are few

  lemma {:induction false} OnePerSplit(e: string, cands: seq<string>, a: Assignment, k: nat, s: Split)
    requires k <= 3 && ReserveUpTo(e, cands, a, k).Reserved?
    ensures |Holders(ReserveUpTo(e, cands, a, k).a, s)| <= |Holders(a, s)| + if s in SPLITS[..k] then 1 else 0
  {
    if k > 0 {
      OnePerSplit(e, cands, a, k - 1, s);
      var b := ReserveUpTo(e, cands, a, k - 1).a;
      assert SPLITS[..k] == SPLITS[..k - 1] + [SPLITS[k - 1]];
      assert SPLITS[k - 1] !in SPLITS[..k - 1];
      if FirstFree(cands, b) < |cands| {
        HoldersGrow(b, cands[FirstFree(cands, b)], SPLITS[k - 1], s);
      }
    }
  }

  lemma {:induction false} OnePerEntity(order: seq<string>, ids: seq<string>, byId: map<string, Group>, h: Hashes,
                                        n: nat, s: Split)
    requires Indexed(ids, byId) && n <= |order| && ReserveAll(order, ids, byId, h, n).Reserved?
    ensures |Holders(ReserveAll(order, ids, byId, h, n).a, s)| <= n
  {
    hide Candidates, ReserveUpTo, Holders;
    if n > 0 {
      OnePerEntity(order, ids, byId, h, n - 1, s);
      var a, cands := ReserveAll(order, ids, byId, h, n - 1).a, Candidates(ids, byId, h, order[n - 1]);
      if |cands| >= 3 {
        OnePerSplit(order[n - 1], cands, a, 3, s);
      }
    } else {
      NoHolders(s);
    }
  }

  lemma NoHolders(s: Split)
    ensures |Holders(map[], s)| == 0
  {
  }

  /** Main result. With unique ids and targets of at least the number of entity types, reservations
      that go through always end in the exact targets: the second error cannot occur. */
  lemma EnoughForEveryEntity(groups: seq<Group>, ids: seq<string>, byId: map<string, Group>, h: Hashes)
    requires IndexOf(groups, ids, byId) && UniqueIds(groups)
    requires forall s :: |Entities(ids, byId)| <= Target(|groups|, s)
    ensures !Allocate(groups, h).MissedTargets?
  {
    hide Target, Placements;
    var order, targets := EntityOrder(ids, byId), TargetCounts(|groups|);
    SortKeepsDistinct(Entities(ids, byId), RarestFirst(ids, byId));
    if Reservations(ids, byId, h).Reserved? {
      var a := Reservations(ids, byId, h).a;
      forall s
        ensures CountsOf(a).At(s) <= targets.At(s)
      {
        OnePerEntity(order, ids, byId, h, |order|, s);
      }
      CountsExactIff(groups, ids, byId, h, a);
    }
  }

  // ---------------------------------------------------------------- coverage

  lemma PartMember(ids: seq<string>, byId: map<string, Group>, a: Assignment, s: Split, e: string)
    requires Indexed(ids, byId)
    ensures Present(PartOf(ids, byId, a, s), e) <==>
              exists id :: id in ids && id in a && a[id] == s && e in byId[id].types
  {
    var part, list := PartOf(ids, byId, a, s), Assigned(ids, byId, a, s);
    if Present(part, e) {
      var k :| 0 <= k < |part| && e in part[k].types;
      SameMembers(list, AllocateGroups.ById, part[k]);
    }
    if id :| id in ids && id in a && a[id] == s && e in byId[id].types {
      SameMembers(list, AllocateGroups.ById, byId[id]);
      var k :| 0 <= k < |part| && part[k] == byId[id];
    }
  }

  lemma ThreeMembers(s: seq<string>, x: string, y: string, z: string)
    requires Distinct(s) && x in s && y in s && z in s && x != y && y != z && x != z
    ensures |s| >= 3
  {
    DistinctSize(s);
    assert {x, y, z} <= set id | id in s;
    SubsetSmaller({x, y, z}, set id | id in s);
  }

  /** An entity in all three splits has three groups. */
  lemma ThreeGroups(ids: seq<string>, byId: map<string, Group>, a: Assignment, e: string)
    requires Indexed(ids, byId) && Distinct(ids)
    requires forall s :: Present(PartOf(ids, byId, a, s), e)
    ensures |Having(ids, byId, e)| >= 3
  {
    hide PartOf, Present, Distinct;
    PartMember(ids, byId, a, Train, e);
    PartMember(ids, byId, a, Valid, e);
    PartMember(ids, byId, a, Test, e);
    var x :| x in ids && x in a && a[x] == Train && e in byId[x].types;
    var y :| y in ids && y in a && a[y] == Valid && e in byId[y].types;
    var z :| z in ids && z in a && a[z] == Test && e in byId[z].types;
    HavingDistinct(ids, byId, e);
    ThreeMembers(Having(ids, byId, e), x, y, z);
  }

  lemma ReservedIsCovered(ids: seq<string>, byId: map<string, Group>, h: Hashes, e: string, s: Split)
    requires Indexed(ids, byId) && Reservations(ids, byId, h).Reserved?
    requires e in Entities(ids, byId) && |Having(ids, byId, e)| >= 3
    ensures Covered(Candidates(ids, byId, h, e), Reservations(ids, byId, h).a, s)
  {
    hide Covered, Candidates, Having, Entities, ReserveAll;
    var order := EntityOrder(ids, byId);
    SameMembers(Entities(ids, byId), RarestFirst(ids, byId), e);
    SameCandidates(ids, byId, h, e);
    var i :| 0 <= i < |order| && order[i] == e;
    AllCovered(order, ids, byId, h, |order|, i, s);
  }

  /** An entity with three groups is reserved in every split and stays there. */
  lemma ReservedIsPresent(ids: seq<string>, byId: map<string, Group>, h: Hashes, a: Assignment, b: Assignment,
                          e: string, s: Split)
    requires Indexed(ids, byId) && Reservations(ids, byId, h) == Reserved(a) && Extends(a, b)
    requires e in Entities(ids, byId) && |Having(ids, byId, e)| >= 3
    ensures Present(PartOf(ids, byId, b, s), e)
  {
    hide PartOf, Present, Candidates, Having, Entities, Reservations;
    ReservedIsCovered(ids, byId, h, e, s);
    SameCandidates(ids, byId, h, e);
    var cands := Candidates(ids, byId, h, e);
    var k :| 0 <= k < |cands| && cands[k] in a && a[cands[k]] == s;
    assert cands[k] in cands;
    PartMember(ids, byId, b, s, e);
  }

  predicate EveryEntityHasThree(ids: seq<string>, byId: map<string, Group>)
    requires Indexed(ids, byId)
  {
    forall e :: e in Entities(ids, byId) ==> |Having(ids, byId, e)| >= 3
  }

  /** Every entity has a group in every split. */
  predicate AllCoveredBy(ids: seq<string>, byId: map<string, Group>, a: Assignment)
    requires Indexed(ids, byId)
  {
    && CoveredBy(PartOf(ids, byId, a, Train), Entities(ids, byId))
    && CoveredBy(PartOf(ids, byId, a, Valid), Entities(ids, byId))
    && CoveredBy(PartOf(ids, byId, a, Test), Entities(ids, byId))
  }

  lemma CoverageIff(ids: seq<string>, byId: map<string, Group>, h: Hashes, a: Assignment, b: Assignment)
    requires Indexed(ids, byId) && Distinct(ids) && Reservations(ids, byId, h) == Reserved(a) && Extends(a, b)
    ensures AllCoveredBy(ids, byId, b) <==> EveryEntityHasThree(ids, byId)
  {
    hide PartOf, Entities, Having, Present, Extends, Reservations, Distinct;
    var entities := Entities(ids, byId);
    if AllCoveredBy(ids, byId, b) {
      forall e | e in entities
        ensures |Having(ids, byId, e)| >= 3
      {
        var i :| 0 <= i < |entities| && entities[i] == e;
        forall s
          ensures Present(PartOf(ids, byId, b, s), e)
        {
          match s case Train => case Valid => case Test =>
        }
        ThreeGroups(ids, byId, b, e);
      }
    }
    if EveryEntityHasThree(ids, byId) {
      forall i, s | 0 <= i < |entities|
        ensures Present(PartOf(ids, byId, b, s), entities[i])
      {
        ReservedIsPresent(ids, byId, h, a, b, entities[i], s);
      }
    }
  }

  /** Main result. The allocation succeeds exactly when the ids are unique, every entity type could be
      reserved, the reservations leave every split within its target, and every entity type has at
      least three groups. */
  lemma AllocatesIff(groups: seq<Group>, ids: seq<string>, byId: map<string, Group>, h: Hashes)
    requires IndexOf(groups, ids, byId)
    ensures var r := Reservations(ids, byId, h);
            Allocate(groups, h).Allocated? <==>
              && UniqueIds(groups) && r.Reserved? && Within(CountsOf(r.a), TargetCounts(|groups|))
              && EveryEntityHasThree(ids, byId)
  {
    hide CountsOf, Within, Placements, UniqueIds, TargetCounts, EveryEntityHasThree, CoveredBy, PartOf, Reservations;
    IdsMeaning(groups);
    var r, targets := Reservations(ids, byId, h), TargetCounts(|groups|);
    if r.Reserved? {
      var p := Placements(ids, byId, r.a, targets, h);
      CountsExactIff(groups, ids, byId, h, r.a);
      ReservedIds(ids, byId, h);
      EveryIdPlaced(ids, byId, r.a, targets, h);
      CoverageIff(ids, byId, h, r.a, p.assignment);
    }
  }

  lemma {:induction false} HavingFew(ids: seq<string>, byId: map<string, Group>, e: string)
    requires Indexed(ids, byId)
    ensures |Having(ids, byId, e)| <= |ids|
  {
    if ids != [] {
      HavingFew(ids[..|ids| - 1], byId, e);
    }
  }

  /** Among fewer than three groups nothing is reserved, and nothing is refused either. */
  lemma {:induction false} FewReserveNothing(order: seq<string>, ids: seq<string>, byId: map<string, Group>, h: Hashes,
                                             n: nat)
    requires Indexed(ids, byId) && |ids| < 3 && n <= |order|
    ensures ReserveAll(order, ids, byId, h, n) == Reserved(map[])
  {
    if n > 0 {
      FewReserveNothing(order, ids, byId, h, n - 1);
      HavingFew(ids, byId, order[n - 1]);
      SortKeepsDistinct(Having(ids, byId, order[n - 1]), CandidateLe(h, order[n - 1]));
    }
  }

  lemma NothingWithin(total: nat)
    ensures Within(CountsOf(map[]), TargetCounts(total))
  {
    forall s
      ensures CountsOf(map[]).At(s) <= TargetCounts(total).At(s)
    {
      NoHolders(s);
    }
  }

  /** With fewer than three groups, some of them with an entity type, nothing is refused, the sizes come
      out right, and the allocation raises. */
  lemma FewGroupsFail(groups: seq<Group>, ids: seq<string>, byId: map<string, Group>, h: Hashes)
    requires IndexOf(groups, ids, byId) && UniqueIds(groups) && |ids| < 3 && !EveryEntityHasThree(ids, byId)
    ensures Allocate(groups, h) == CoverageFailed
  {
    hide CountsOf, Within, Placements, CoveredBy, PartOf, TargetCounts, Entities, ReserveAll, EntityOrder, UniqueIds,
         EveryEntityHasThree, Extends;
    var targets := TargetCounts(|groups|);
    IdsMeaning(groups);
    FewReserveNothing(EntityOrder(ids, byId), ids, byId, h, |EntityOrder(ids, byId)|);
    NothingWithin(|groups|);
    CountsExactIff(groups, ids, byId, h, map[]);
    EveryIdPlaced(ids, byId, map[], targets, h);
    CoverageIff(ids, byId, h, map[], Placements(ids, byId, map[], targets, h).assignment);
  }

  /** One entity type in two groups, and nothing else. */
  lemma TwoGroupsFail(x: Group, y: Group, e: string, h: Hashes)
    requires x.id != y.id && x.types == [e] && y.types == [e]
    ensures Allocate([x, y], h) == CoverageFailed
  {
    hide Allocate, EveryEntityHasThree;
    var groups, ids, byId := [x, y], Ids([x, y]), Allocation.ById([x, y]);
    IdsMeaning(groups);
    TwoIndexed(x, y);
    InTwoGroups(groups, ids, byId, y, e);
    FewGroupsFail(groups, ids, byId, h);
  }

  lemma TwoIndexed(x: Group, y: Group)
    ensures y.id in Ids([x, y]) && y.id in Allocation.ById([x, y]) && Allocation.ById([x, y])[y.id] == y
  {
    assert [x, y][..1] == [x];
  }

  lemma InTwoGroups(groups: seq<Group>, ids: seq<string>, byId: map<string, Group>, x: Group, e: string)
    requires Indexed(ids, byId) && |ids| < 3 && x.id in ids && byId[x.id].types == [e]
    ensures !EveryEntityHasThree(ids, byId)
  {
    var i :| 0 <= i < |ids| && ids[i] == x.id;
    assert e in byId[ids[i]].types;
    HavingFew(ids, byId, e);
    assert e in Entities(ids, byId);
  }

  lemma ReservedIds(ids: seq<string>, byId: map<string, Group>, h: Hashes)
    requires Indexed(ids, byId) && Reservations(ids, byId, h).Reserved?
    ensures forall id :: id in Reservations(ids, byId, h).a ==> id in ids
  {
    ReservedAreIds(EntityOrder(ids, byId), ids, byId, h, |EntityOrder(ids, byId)|);
  }

  // ---------------------------------------------------------------- the parts of a success

  /** The groups behind the ids. */
  function Look(ids: seq<string>, byId: map<string, Group>): (r: seq<Group>)
    requires Indexed(ids, byId)
    ensures |r| == |ids| && forall i :: 0 <= i < |ids| ==> r[i] == byId[ids[i]]
  {
    seq(|ids|, i requires 0 <= i < |ids| => byId[ids[i]])
  }

  lemma {:induction false} LookIsGroups(groups: seq<Group>)
    requires UniqueIds(groups)
    ensures Indexed(Ids(groups), Allocation.ById(groups)) && Look(Ids(groups), Allocation.ById(groups)) == groups
  {
    IdsMeaning(groups);
    RepeatsShorten(groups);
    if groups != [] {
      var front, z := groups[..|groups| - 1], groups[|groups| - 1];
      assert forall i :: 0 <= i < |front| ==> front[i] == groups[i];
      LookIsGroups(front);
      IdIsListed(front, z.id);
      assert z.id !in Ids(front);
      assert Look(Ids(groups), Allocation.ById(groups)) == Look(Ids(front), Allocation.ById(front)) + [z];
    }
  }

  lemma {:induction false} SplitsPartition(ids: seq<string>, byId: map<string, Group>, a: Assignment)
    requires Indexed(ids, byId) && forall id :: id in ids ==> id in a
    ensures multiset(Assigned(ids, byId, a, Train)) + multiset(Assigned(ids, byId, a, Valid))
            + multiset(Assigned(ids, byId, a, Test))
            == multiset(Look(ids, byId))
  {
    if ids != [] {
      var front, z := ids[..|ids| - 1], ids[|ids| - 1];
      assert ids == front + [z];
      SplitsPartition(front, byId, a);
      assert Look(ids, byId) == Look(front, byId) + [byId[z]];
    }
  }

  function HeldBy(ids: seq<string>, a: Assignment, s: Split): set<string> {
    set id | id in ids && id in a && a[id] == s
  }

  lemma HeldByLast(front: seq<string>, z: string, a: Assignment, s: Split)
    requires z !in front
    ensures |HeldBy(front + [z], a, s)| == |HeldBy(front, a, s)| + if z in a && a[z] == s then 1 else 0
  {
    assert HeldBy(front + [z], a, s) == if z in a && a[z] == s then HeldBy(front, a, s) + {z} else HeldBy(front, a, s);
  }

  lemma {:induction false} AssignedSize(ids: seq<string>, byId: map<string, Group>, a: Assignment, s: Split)
    requires Indexed(ids, byId) && Distinct(ids)
    ensures |Assigned(ids, byId, a, s)| == |HeldBy(ids, a, s)|
  {
    hide HeldBy;
    if ids == [] {
      NoneHeld(a, s);
    } else {
      var front, z := ids[..|ids| - 1], ids[|ids| - 1];
      AssignedSize(front, byId, a, s);
      assert ids == front + [z] && z !in front;
      HeldByLast(front, z, a, s);
    }
  }

  lemma NoneHeld(a: Assignment, s: Split)
    ensures HeldBy([], a, s) == {}
  {
  }

  lemma PartSize(ids: seq<string>, byId: map<string, Group>, a: Assignment, s: Split)
    requires Indexed(ids, byId) && Distinct(ids) && forall id :: id in a ==> id in ids
    ensures |PartOf(ids, byId, a, s)| == CountsOf(a).At(s)
  {
    hide Assigned, Indexed, Distinct, Sort;
    SortKeepsDistinct(Assigned(ids, byId, a, s), AllocateGroups.ById);
    AssignedSize(ids, byId, a, s);
    assert Holders(a, s) == HeldBy(ids, a, s);
  }

  predicate IdsAscend(part: seq<Group>) {
    forall i, j :: 0 <= i < j < |part| ==> StringLe(part[i].id, part[j].id)
  }

  lemma PartAscends(ids: seq<string>, byId: map<string, Group>, a: Assignment, s: Split)
    requires Indexed(ids, byId)
    ensures IdsAscend(PartOf(ids, byId, a, s))
  {
    forall x: Group, y: Group
      ensures AllocateGroups.ById(x, y) || AllocateGroups.ById(y, x)
    {
      StringTotal(x.id, y.id);
    }
    forall x: Group, y: Group, z: Group | AllocateGroups.ById(x, y) && AllocateGroups.ById(y, z)
      ensures AllocateGroups.ById(x, z)
    {
      StringChains(x.id, y.id, z.id);
    }
    SortAscends(Assigned(ids, byId, a, s), AllocateGroups.ById);
  }

  /** What a success returns. */
  lemma AllocatedReturns(groups: seq<Group>, ids: seq<string>, byId: map<string, Group>, h: Hashes)
    returns (b: Assignment)
    requires IndexOf(groups, ids, byId) && Allocate(groups, h).Allocated?
    ensures Distinct(ids) && UniqueIds(groups) && (forall id :: id in b <==> id in ids)
            && CountsOf(b) == TargetCounts(|groups|)
    ensures forall s :: Allocate(groups, h).Part(s) == PartOf(ids, byId, b, s)
    ensures AllCoveredBy(ids, byId, b)
  {
    hide CountsOf, Within, Placements, UniqueIds, TargetCounts, EveryEntityHasThree, CoveredBy, PartOf, Reservations,
         Entities, Distinct;
    IdsMeaning(groups);
    AllocatesIff(groups, ids, byId, h);
    ReservedIds(ids, byId, h);
    var a, targets := Reservations(ids, byId, h).a, TargetCounts(|groups|);
    EveryIdPlaced(ids, byId, a, targets, h);
    b := Placements(ids, byId, a, targets, h).assignment;
    assert Allocate(groups, h)
           == Allocated(PartOf(ids, byId, b, Train), PartOf(ids, byId, b, Valid), PartOf(ids, byId, b, Test));
  }

  /** Main result. A success puts every group in exactly one split, each split has exactly its target
      size and is in id order, and every entity type occurs in all three. */
  lemma AllocatedParts(groups: seq<Group>, ids: seq<string>, byId: map<string, Group>, h: Hashes)
    requires IndexOf(groups, ids, byId) && Allocate(groups, h).Allocated?
    ensures var r := Allocate(groups, h);
            && multiset(r.train) + multiset(r.valid) + multiset(r.test) == multiset(groups)
            && (forall s :: |r.Part(s)| == Target(|groups|, s))
            && (forall s :: IdsAscend(r.Part(s)))
            && (forall s, e :: e in Entities(ids, byId) ==> Present(r.Part(s), e))
  {
    hide Allocate, CountsOf, UniqueIds, Target, Present, Assigned, Entities, Distinct, IdsAscend, AllocateGroups.ById,
         Sort;
    var b := AllocatedReturns(groups, ids, byId, h);
    var r := Allocate(groups, h);
    LookIsGroups(groups);
    SplitsPartition(ids, byId, b);
    assert r.Part(Train) == r.train && r.Part(Valid) == r.valid && r.Part(Test) == r.test;
    forall s
      ensures |r.Part(s)| == Target(|groups|, s) && IdsAscend(r.Part(s))
    {
      PartSize(ids, byId, b, s);
      PartAscends(ids, byId, b, s);
    }
    forall s, e | e in Entities(ids, byId)
      ensures Present(r.Part(s), e)
    {
      var i :| 0 <= i < |Entities(ids, byId)| && Entities(ids, byId)[i] == e;
      match s case Train => case Valid => case Test =>
    }
  }

  // ---------------------------------------------------------------- stratification and order

  /** Partway through a stratum that has room: no split has more than its local target. */
  ghost predicate Filling(p: Placed, q: Placed, local: Counts, n: nat) {
    && q.local.Sum() == n
    && forall s: Split :: q.local.At(s) <= local.At(s) && q.counts.At(s) == p.counts.At(s) + q.local.At(s)
  }

  /** Every split has global room for what the stratum should give it. */
  predicate HasRoom(p: Placed, local: Counts, targets: Counts) {
    forall s: Split :: p.counts.At(s) + local.At(s) <= targets.At(s)
  }

  lemma Unfilled(q: Placed, local: Counts) returns (s: Split)
    requires q.local.Sum() < local.Sum()
    ensures q.local.At(s) < local.At(s)
  {
    s := if q.local.train < local.train then Train else if q.local.valid < local.valid then Valid else Test;
  }

  /** The largest local room is taken, so it was not empty. */
  lemma ChosenHasRoom(p: Placed, q: Placed, local: Counts, targets: Counts, h: Hashes, id: string, n: nat)
    requires Filling(p, q, local, n) && HasRoom(p, local, targets) && n < local.Sum()
    ensures var s := Best(q, local, targets, Tie(h, id), Choices(q.counts, targets)); q.local.At(s) < local.At(s)
  {
    hide Best, Choices, StringLe, Full;
    var s := Best(q, local, targets, Tie(h, id), Choices(q.counts, targets));
    var t := Unfilled(q, local);
    assert q.counts.At(t) < targets.At(t);
    assert t in Choices(q.counts, targets);
    assert !Prefers(q, local, targets, Tie(h, id), t, s);
  }

  lemma FillStep(p: Placed, q: Placed, local: Counts, n: nat, s: Split)
    requires Filling(p, q, local, n) && q.local.At(s) < local.At(s)
    ensures Filling(p, q.(counts := q.counts.With(s, q.counts.At(s) + 1), local := q.local.With(s, q.local.At(s) + 1)),
                    local, n + 1)
  {
  }

  lemma PlaceFills(p: Placed, q: Placed, local: Counts, targets: Counts, h: Hashes, id: string, n: nat)
    requires Filling(p, q, local, n) && HasRoom(p, local, targets) && n < local.Sum()
    ensures Filling(p, Place(q, local, targets, h, id), local, n + 1)
  {
    hide HasRoom, Best, Choices, Full, Tie;
    ChosenHasRoom(p, q, local, targets, h, id, n);
    FillStep(p, q, local, n, Best(q, local, targets, Tie(h, id), Choices(q.counts, targets)));
  }

  lemma {:induction false} MembersFill(p: Placed, members: seq<string>, local: Counts, targets: Counts, h: Hashes,
                                       n: nat)
    requires n <= |members| == local.Sum() && Filling(p, p, local, 0) && HasRoom(p, local, targets)
    ensures Filling(p, PlaceMembers(p, members, local, targets, h, n), local, n)
  {
    hide Filling, HasRoom, Place;
    if n > 0 {
      MembersFill(p, members, local, targets, h, n - 1);
      PlaceFills(p, PlaceMembers(p, members, local, targets, h, n - 1), local, targets, h, members[n - 1], n - 1);
    }
  }

  lemma TargetsNatural(total: nat, s: Split)
    ensures TargetCounts(total).At(s) >= 0
  {
    hide Target;
  }

  lemma StartsFilling(p: Placed, local: Counts)
    requires p.local == Counts(0, 0, 0) && forall s: Split :: local.At(s) >= 0
    ensures Filling(p, p, local, 0)
  {
    assert forall s: Split :: Counts(0, 0, 0).At(s) == 0;
  }

  lemma FilledIsDone(p: Placed, q: Placed, local: Counts)
    requires local.Sum() >= 0 && Filling(p, q, local, local.Sum())
    ensures q.local == local
  {
    SameSumWithin(q.local, local);
  }

  /** Main result. A stratum for which every split still has room is divided exactly by its own
      largest-remainder targets. */
  lemma StratumDividedExactly(p: Placed, members: seq<string>, targets: Counts, h: Hashes)
    requires p.local == Counts(0, 0, 0) && HasRoom(p, TargetCounts(|members|), targets)
    ensures PlaceMembers(p, members, TargetCounts(|members|), targets, h, |members|).local == TargetCounts(|members|)
  {
    hide TargetCounts, PlaceMembers, HasRoom, Filling;
    var local := TargetCounts(|members|);
    TargetsAddUp(|members|);
    forall s
      ensures local.At(s) >= 0
    {
      TargetsNatural(|members|, s);
    }
    StartsFilling(p, local);
    MembersFill(p, members, local, targets, h, |members|);
    FilledIsDone(p, PlaceMembers(p, members, local, targets, h, |members|), local);
  }

  /** Main result. Entities are reserved rarest first, equally rare ones by name. */
  lemma RarestReservedFirst(ids: seq<string>, byId: map<string, Group>)
    requires Indexed(ids, byId)
    ensures var order := EntityOrder(ids, byId);
            forall i, j :: 0 <= i < j < |order| ==>
              || |Having(ids, byId, order[i])| < |Having(ids, byId, order[j])|
              || (|Having(ids, byId, order[i])| == |Having(ids, byId, order[j])| && StringLe(order[i], order[j]))
  {
    hide Having, StringLe;
    var le := RarestFirst(ids, byId);
    forall a, b
      ensures le(a, b) || le(b, a)
    {
      StringTotal(a, b);
    }
    forall a, b, c | le(a, b) && le(b, c)
      ensures le(a, c)
    {
      if StringLe(a, b) && StringLe(b, c) {
        StringChains(a, b, c);
      }
    }
    SortAscends(Entities(ids, byId), le);
  }

  /** Main result. A split that lacks an entity is reserved the unassigned group with the least coverage hash
      among those of the entity; a split that has it is left alone. */
  lemma ReservedByHash(ids: seq<string>, byId: map<string, Group>, h: Hashes, e: string, a: Assignment, s: Split)
    requires Indexed(ids, byId) && ReserveOne(e, Candidates(ids, byId, h, e), a, s).Reserved?
    ensures var b := ReserveOne(e, Candidates(ids, byId, h, e), a, s).a;
            if exists i :: 0 <= i < |ids| && e in byId[ids[i]].types && ids[i] in a && a[ids[i]] == s then b == a
            else exists i :: 0 <= i < |ids| && LeastUnassigned(ids, byId, h, e, a, i) && b == a[ids[i] := s]
  {
    hide StringLe, Having, FirstFree, LeastUnassigned, Covered, Candidates;
    var cands := Candidates(ids, byId, h, e);
    SameCandidates(ids, byId, h, e);
    CoveredIff(ids, byId, h, e, a, s);
    if !Covered(cands, a, s) {
      var k := FirstFree(cands, a);
      assert cands[k] in cands;
      var i :| 0 <= i < |ids| && ids[i] == cands[k];
      LeastIs(ids, byId, h, e, a, k, i);
    }
  }

  lemma CoveredIff(ids: seq<string>, byId: map<string, Group>, h: Hashes, e: string, a: Assignment, s: Split)
    requires Indexed(ids, byId)
    ensures Covered(Candidates(ids, byId, h, e), a, s) <==>
              exists i :: 0 <= i < |ids| && e in byId[ids[i]].types && ids[i] in a && a[ids[i]] == s
  {
    hide Having, Candidates;
    var cands := Candidates(ids, byId, h, e);
    SameCandidates(ids, byId, h, e);
    if i :| 0 <= i < |ids| && e in byId[ids[i]].types && ids[i] in a && a[ids[i]] == s {
      assert ids[i] in cands;
      var k :| 0 <= k < |cands| && cands[k] == ids[i];
    }
    if k :| 0 <= k < |cands| && cands[k] in a && a[cands[k]] == s {
      assert cands[k] in cands;
      var i :| 0 <= i < |ids| && ids[i] == cands[k];
    }
  }

  ghost predicate LeastUnassigned(ids: seq<string>, byId: map<string, Group>, h: Hashes, e: string, a: Assignment,
                                  i: nat)
    requires Indexed(ids, byId) && i < |ids|
  {
    && e in byId[ids[i]].types && ids[i] !in a
    && forall j :: 0 <= j < |ids| && e in byId[ids[j]].types && ids[j] !in a ==>
         StringLe(h.coverage(e, ids[i]), h.coverage(e, ids[j]))
  }

  lemma CandidatesAscend(ids: seq<string>, byId: map<string, Group>, h: Hashes, e: string)
    requires Indexed(ids, byId)
    ensures var cands := Candidates(ids, byId, h, e);
            forall i, j :: 0 <= i < j < |cands| ==> StringLe(h.coverage(e, cands[i]), h.coverage(e, cands[j]))
  {
    hide StringLe, Having, Sort;
    SamePreorder(x => h.coverage(e, x), CandidateLe(h, e));
    SortAscends(Having(ids, byId, e), CandidateLe(h, e));
  }

  lemma LeastIs(ids: seq<string>, byId: map<string, Group>, h: Hashes, e: string, a: Assignment, k: nat, i: nat)
    requires Indexed(ids, byId) && i < |ids| && k < |Candidates(ids, byId, h, e)|
    requires k == FirstFree(Candidates(ids, byId, h, e), a) && ids[i] == Candidates(ids, byId, h, e)[k]
    ensures LeastUnassigned(ids, byId, h, e, a, i)
  {
    hide StringLe, Having, FirstFree, Candidates;
    var cands := Candidates(ids, byId, h, e);
    SameCandidates(ids, byId, h, e);
    CandidatesAscend(ids, byId, h, e);
    assert cands[k] in cands;
    forall j | 0 <= j < |ids| && e in byId[ids[j]].types && ids[j] !in a
      ensures StringLe(h.coverage(e, ids[i]), h.coverage(e, ids[j]))
    {
      assert ids[j] in cands;
      var m :| 0 <= m < |cands| && cands[m] == ids[j];
      if m == k {
        StringTotal(h.coverage(e, ids[i]), h.coverage(e, ids[j]));
      }
    }
  }
}
