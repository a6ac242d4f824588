/** The whole allocation: its result, when it succeeds, and what a success means. */
module AllocateGroups {
  import opened Targets
  import opened Sequences
  import opened Allocation
  import opened Placement

  /** The three errors the allocation raises, or the groups of each split. */
  datatype Outcome =
    | CannotReserve(entity: string, split: Split)
    | MissedTargets(actual: Counts, targets: Counts)
    | CoverageFailed
    | Allocated(train: seq<Group>, valid: seq<Group>, test: seq<Group>)
  {
    function Part(s: Split): seq<Group>
      requires Allocated?
    {
      match s case Train => train case Valid => valid case Test => test
    }
  }

  /** Groups assigned to a split, before sorting. */
  function Assigned(ids: seq<string>, byId: map<string, Group>, a: Assignment, s: Split): (r: seq<Group>)
    requires Indexed(ids, byId)
    ensures forall g :: g in r <==> exists i :: 0 <= i < |ids| && ids[i] in a && a[ids[i]] == s && byId[ids[i]] == g
  {
    if ids == [] then []
    else
      var front, id := ids[..|ids| - 1], ids[|ids| - 1];
      assert forall i :: 0 <= i < |front| ==> front[i] == ids[i];
      Assigned(front, byId, a, s) + if id in a && a[id] == s then [byId[id]] else []
  }

  predicate ById(x: Group, y: Group) {
    StringLe(x.id, y.id)
  }

  function PartOf(ids: seq<string>, byId: map<string, Group>, a: Assignment, s: Split): seq<Group>
    requires Indexed(ids, byId)
  {
    Sort(Assigned(ids, byId, a, s), ById)
  }

  predicate Present(part: seq<Group>, e: string) {
    exists k :: 0 <= k < |part| && e in part[k].types
  }

  /** Every entity type has a group in the split. */
  predicate CoveredBy(part: seq<Group>, entities: seq<string>) {
    forall i :: 0 <= i < |entities| ==> Present(part, entities[i])
  }

  function Finish(ids: seq<string>, byId: map<string, Group>, p: Placed, targets: Counts): Outcome
    requires Indexed(ids, byId)
  {
    if p.counts != targets then MissedTargets(p.counts, targets)
    else
      var train, valid := PartOf(ids, byId, p.assignment, Train), PartOf(ids, byId, p.assignment, Valid);
      var test, entities := PartOf(ids, byId, p.assignment, Test), Entities(ids, byId);
      if CoveredBy(train, entities) && CoveredBy(valid, entities) && CoveredBy(test, entities)
      then Allocated(train, valid, test) else CoverageFailed
  }

  function Reservations(ids: seq<string>, byId: map<string, Group>, h: Hashes): Reservation
    requires Indexed(ids, byId)
  {
    ReserveAll(EntityOrder(ids, byId), ids, byId, h, |EntityOrder(ids, byId)|)
  }

  function Placements(ids: seq<string>, byId: map<string, Group>, a: Assignment, targets: Counts, h: Hashes): Placed
    requires Indexed(ids, byId)
  {
    PlaceStrata(StrataOrder(ids, byId, a), ids, byId, a, targets, h, |StrataOrder(ids, byId, a)|)
  }

  function Allocate(groups: seq<Group>, h: Hashes): Outcome {
    IdsMeaning(groups);
    var ids, byId, targets := Ids(groups), Allocation.ById(groups), TargetCounts(|groups|);
    match Reservations(ids, byId, h)
    case Refused(e, s) => CannotReserve(e, s)
    case Reserved(a) => Finish(ids, byId, Placements(ids, byId, a, targets, h), targets)
  }

  // ---------------------------------------------------------------- the program

  method IndexGroups(groups: seq<Group>) returns (ids: seq<string>, byId: map<string, Group>)
    ensures ids == Ids(groups) && byId == Allocation.ById(groups)
  {
    ids, byId := [], map[];
    for k := 0 to |groups|
      invariant ids == Ids(groups[..k]) && byId == Allocation.ById(groups[..k])
    {
      assert groups[..k + 1][..k] == groups[..k];
      var g := groups[k];
      if g.id !in ids {
        ids := ids + [g.id];
      }
      byId := byId[g.id := g];
    }
    assert groups[..|groups|] == groups;
  }

  ghost predicate SameKeys<K(!new), V>(keys: seq<K>, lists: map<K, seq<V>>) {
    forall key :: key in lists <==> key in keys
  }

  /** One group joins the lists of its entity types. */
  method AddGroup(id: string, types: seq<string>, entities0: seq<string>, groups0: map<string, seq<string>>)
    returns (entities: seq<string>, groups: map<string, seq<string>>)
    requires Distinct(types) && SameKeys(entities0, groups0)
    ensures entities == Union(entities0, types) && SameKeys(entities, groups)
    ensures forall e :: Listed(groups, e) == Listed(groups0, e) + if e in types then [id] else []
  {
    entities, groups := entities0, groups0;
    for j := 0 to |types|
      invariant entities == Union(entities0, types[..j])
      invariant SameKeys(entities, groups)
      invariant forall e :: Listed(groups, e) == Listed(groups0, e) + if e in types[..j] then [id] else []
    {
      var e := types[j];
      assert types[..j + 1][..j] == types[..j] && types[..j + 1] == types[..j] + [e] && e !in types[..j];
      if e !in entities {
        entities := entities + [e];
      }
      groups := Appended(groups, e, id);
    }
    assert types[..|types|] == types;
  }

  lemma NextId(ids: seq<string>, byId: map<string, Group>, k: nat)
    requires Indexed(ids, byId) && k < |ids|
    ensures Indexed(ids[..k], byId) && Indexed(ids[..k + 1], byId)
    ensures Entities(ids[..k + 1], byId) == Union(Entities(ids[..k], byId), byId[ids[k]].types)
    ensures forall e :: Having(ids[..k + 1], byId, e)
                        == Having(ids[..k], byId, e) + if e in byId[ids[k]].types then [ids[k]] else []
  {
    assert ids[..k + 1][..k] == ids[..k];
  }

  method GroupByEntity(ids: seq<string>, byId: map<string, Group>)
    returns (entities: seq<string>, entityGroups: map<string, seq<string>>)
    requires Indexed(ids, byId)
    requires forall i :: 0 <= i < |ids| ==> Distinct(byId[ids[i]].types)
    ensures entities == Entities(ids, byId) && SameKeys(entities, entityGroups)
    ensures forall e :: Listed(entityGroups, e) == Having(ids, byId, e)
  {
    entities, entityGroups := [], map[];
    for k := 0 to |ids|
      invariant entities == Entities(ids[..k], byId) && SameKeys(entities, entityGroups)
      invariant forall e :: Listed(entityGroups, e) == Having(ids[..k], byId, e)
    {
      NextId(ids, byId, k);
      entities, entityGroups := AddGroup(ids[k], byId[ids[k]].types, entities, entityGroups);
    }
    assert ids[..|ids|] == ids;
  }

  method ReserveCoverage(order: seq<string>, entityGroups: map<string, seq<string>>, ids: seq<string>,
                         byId: map<string, Group>, h: Hashes) returns (r: Reservation)
    requires Indexed(ids, byId)
    requires forall e :: e in order ==> Listed(entityGroups, e) == Having(ids, byId, e)
    ensures r == ReserveAll(order, ids, byId, h, |order|)
  {
    hide Having, Covered, Sort, ReserveUpTo;
    var assignment: Assignment := map[];
    for k := 0 to |order|
      invariant Reserved(assignment) == ReserveAll(order, ids, byId, h, k)
    {
      var entity := order[k];
      var candidates := Sort(Listed(entityGroups, entity), CandidateLe(h, entity));
      if |candidates| >= 3 {
        var reserved := ReserveEntity(entity, candidates, assignment);
        if reserved.Refused? {
          RefusalStays(order, ids, byId, h, entity, candidates, assignment, 3, k + 1);
          return reserved;
        }
        assignment := reserved.a;
      }
    }
    return Reserved(assignment);
  }

  /** One entity: for each split that lacks it, the first unassigned candidate. */
  method ReserveEntity(entity: string, candidates: seq<string>, start: Assignment) returns (r: Reservation)
    ensures r == ReserveUpTo(entity, candidates, start, 3)
  {
    hide Covered;
    var assignment := start;
    for j := 0 to 3
      invariant Reserved(assignment) == ReserveUpTo(entity, candidates, start, j)
    {
      var split := SPLITS[j];
      if !Covered(candidates, assignment, split) {
        var free := FirstFree(candidates, assignment);
        if free == |candidates| {
          RefusedOnward(entity, candidates, start, j + 1, 3);
          return Refused(entity, split);
        }
        assignment := assignment[candidates[free] := split];
      }
    }
    return Reserved(assignment);
  }

  lemma {:induction false} RefusedOnward(e: string, cands: seq<string>, a: Assignment, j: nat, k: nat)
    requires j <= k <= 3 && ReserveUpTo(e, cands, a, j).Refused?
    ensures ReserveUpTo(e, cands, a, k) == ReserveUpTo(e, cands, a, j)
    decreases k - j
  {
    if j < k {
      RefusedOnward(e, cands, a, j, k - 1);
    }
  }

  lemma {:induction false} RefusedToTheEnd(order: seq<string>, ids: seq<string>, byId: map<string, Group>, h: Hashes,
                                           k: nat, n: nat)
    requires Indexed(ids, byId) && k <= n <= |order| && ReserveAll(order, ids, byId, h, k).Refused?
    ensures ReserveAll(order, ids, byId, h, n) == ReserveAll(order, ids, byId, h, k)
    decreases n - k
  {
    if k < n {
      RefusedToTheEnd(order, ids, byId, h, k, n - 1);
    }
  }

  lemma RefusalStays(order: seq<string>, ids: seq<string>, byId: map<string, Group>, h: Hashes, e: string,
                     cands: seq<string>,
                     a: Assignment, j: nat, k: nat)
    requires Indexed(ids, byId) && 0 < k <= |order| && j <= 3 && e == order[k - 1]
    requires cands == Candidates(ids, byId, h, e) && |cands| >= 3
    requires ReserveAll(order, ids, byId, h, k - 1) == Reserved(a) && ReserveUpTo(e, cands, a, j).Refused?
    ensures ReserveAll(order, ids, byId, h, |order|) == ReserveUpTo(e, cands, a, j)
  {
    RefusedOnward(e, cands, a, j, 3);
    RefusedToTheEnd(order, ids, byId, h, k, |order|);
  }

  /** One group joins the list of its stratum. */
  method AddMember(id: string, key: Stratum, keys0: seq<Stratum>, strata0: map<Stratum, seq<string>>)
    returns (keys: seq<Stratum>, strata: map<Stratum, seq<string>>)
    requires SameKeys(keys0, strata0)
    ensures keys == (if key in keys0 then keys0 else keys0 + [key]) && SameKeys(keys, strata)
    ensures forall k :: Listed(strata, k) == Listed(strata0, k) + if k == key then [id] else []
  {
    keys := if key in keys0 then keys0 else keys0 + [key];
    strata := Appended(strata0, key, id);
  }

  lemma NoMembersYet(byId: map<string, Group>, a: Assignment)
    ensures Strata([], byId, a) == [] && forall key :: MembersOf([], byId, a, key) == []
  {
  }

  method GroupByStratum(ids: seq<string>, byId: map<string, Group>, a: Assignment)
    returns (keys: seq<Stratum>, strata: map<Stratum, seq<string>>)
    requires Indexed(ids, byId)
    ensures keys == Strata(ids, byId, a) && SameKeys(keys, strata)
    ensures forall key :: Listed(strata, key) == MembersOf(ids, byId, a, key)
  {
    hide StratumOf, Strata, MembersOf;
    keys, strata := [], map[];
    NoMembersYet(byId, a);
    assert ids[..0] == [];
    for k := 0 to |ids|
      invariant keys == Strata(ids[..k], byId, a) && SameKeys(keys, strata)
      invariant forall key :: Listed(strata, key) == MembersOf(ids[..k], byId, a, key)
    {
      NextMemberId(ids, byId, a, k);
      if ids[k] !in a {
        keys, strata := AddMember(ids[k], StratumOf(byId[ids[k]]), keys, strata);
      }
    }
    assert ids[..|ids|] == ids;
  }

  lemma NextMemberId(ids: seq<string>, byId: map<string, Group>, a: Assignment, k: nat)
    requires Indexed(ids, byId) && k < |ids|
    ensures Indexed(ids[..k], byId) && Indexed(ids[..k + 1], byId)
    ensures var front, key := Strata(ids[..k], byId, a), StratumOf(byId[ids[k]]);
            Strata(ids[..k + 1], byId, a) == if ids[k] in a || key in front then front else front + [key]
    ensures forall key :: MembersOf(ids[..k + 1], byId, a, key) ==
              MembersOf(ids[..k], byId, a, key) + if ids[k] !in a && StratumOf(byId[ids[k]]) == key then [ids[k]]
                else []
  {
    assert ids[..k + 1][..k] == ids[..k];
  }

  function Restrict(a: Assignment, ids: seq<string>): Assignment {
    map id | id in a && id in ids :: a[id]
  }

  lemma RestrictNext(a: Assignment, ids: seq<string>, k: nat)
    requires Distinct(ids) && k < |ids|
    ensures var before := Restrict(a, ids[..k]);
            && ids[k] !in before
            && Restrict(a, ids[..k + 1]) == if ids[k] in a then before[ids[k] := a[ids[k]]] else before
  {
    assert ids[..k + 1] == ids[..k] + [ids[k]] && ids[k] !in ids[..k];
  }

  lemma NothingCounted(a: Assignment, ids: seq<string>)
    requires ids == []
    ensures CountsOf(Restrict(a, ids)) == Counts(0, 0, 0)
  {
  }

  lemma RestrictAll(a: Assignment, ids: seq<string>)
    requires forall id :: id in a ==> id in ids
    ensures Restrict(a, ids) == a
  {
  }

  method CountAssigned(ids: seq<string>, a: Assignment) returns (counts: Counts)
    requires Distinct(ids) && forall id :: id in a ==> id in ids
    ensures counts == CountsOf(a)
  {
    hide Restrict, CountsOf, Distinct;
    counts := Counts(0, 0, 0);
    NothingCounted(a, ids[..0]);
    for k := 0 to |ids|
      invariant counts == CountsOf(Restrict(a, ids[..k]))
    {
      RestrictNext(a, ids, k);
      if ids[k] in a {
        counts := counts.With(a[ids[k]], counts.At(a[ids[k]]) + 1);
        CountsGrow(Restrict(a, ids[..k]), ids[k], a[ids[k]]);
      }
    }
    assert ids[..|ids|] == ids;
    RestrictAll(a, ids);
  }

  lemma NobodyPlaced(p: Placed, members: seq<string>, local: Counts, targets: Counts, h: Hashes)
    ensures PlaceMembers(p, members, local, targets, h, 0) == p
  {
  }

  lemma NextPlaced(p: Placed, members: seq<string>, local: Counts, targets: Counts, h: Hashes, j: nat)
    requires j < |members|
    ensures PlaceMembers(p, members, local, targets, h, j + 1)
            == Place(PlaceMembers(p, members, local, targets, h, j), local, targets, h, members[j])
  {
  }

  /** One stratum: each member goes to the best split below its target. */
  method PlaceStratum(p0: Placed, members: seq<string>, targets: Counts, h: Hashes) returns (p: Placed)
    ensures p == PlaceMembers(p0.(local := Counts(0, 0, 0)), members, TargetCounts(|members|), targets, h, |members|)
  {
    hide Choices, Best, Full, Tie, TargetCounts, PlaceMembers;
    var localTargets := ComputeTargets(|members|);
    p := p0.(local := Counts(0, 0, 0));
    NobodyPlaced(p, members, localTargets, targets, h);
    for j := 0 to |members|
      invariant p == PlaceMembers(p0.(local := Counts(0, 0, 0)), members, localTargets, targets, h, j)
    {
      var choices := Choices(p.counts, targets);
      var chosen := Best(p, localTargets, targets, Tie(h, members[j]), choices);
      p := Placed(p.assignment[members[j] := chosen], p.counts.With(chosen, p.counts.At(chosen) + 1),
                  p.local.With(chosen, p.local.At(chosen) + 1), p.fallback || Full(p.counts, targets));
      NextPlaced(p0.(local := Counts(0, 0, 0)), members, localTargets, targets, h, j);
    }
  }

  method PlaceGroups(ids: seq<string>, byId: map<string, Group>, a: Assignment, targets: Counts, h: Hashes)
    returns (p: Placed)
    requires Indexed(ids, byId) && Distinct(ids) && forall id :: id in a ==> id in ids
    ensures p == Placements(ids, byId, a, targets, h)
  {
    var keys, strata := GroupByStratum(ids, byId, a);
    var counts := CountAssigned(ids, a);
    var order := Sort(keys, StratumLe);
    p := Placed(a, counts, Counts(0, 0, 0), false);
    for k := 0 to |order|
      invariant p == PlaceStrata(order, ids, byId, a, targets, h, k)
    {
      var members := Sort(Listed(strata, order[k]), MemberLe(h, order[k]));
      p := PlaceStratum(p, members, targets, h);
    }
  }

  /** Types are sets in the source: no type is listed twice. */
  predicate TypesDistinct(groups: seq<Group>) {
    forall i :: 0 <= i < |groups| ==> forall j, k :: 0 <= j < k < |groups[i].types| ==>
        groups[i].types[j] != groups[i].types[k]
  }

  lemma {:induction false} IndexedAreGroups(groups: seq<Group>)
    ensures forall id :: id in Allocation.ById(groups) ==> Allocation.ById(groups)[id] in groups
  {
    if groups != [] {
      IndexedAreGroups(groups[..|groups| - 1]);
    }
  }

  method AllocateGroups(groups: seq<Group>, h: Hashes) returns (r: Outcome)
    requires TypesDistinct(groups)
    ensures r == Allocate(groups, h)
  {
    IdsMeaning(groups);
    IndexedAreGroups(groups);
    var targets := ComputeTargets(|groups|);
    var ids, byId := IndexGroups(groups);
    var entities, entityGroups := GroupByEntity(ids, byId);
    var order := Sort(entities, RarestFirst(ids, byId));
    forall e | e in order
      ensures e in entities
    {
      SameMembers(entities, RarestFirst(ids, byId), e);
    }
    var reservation := ReserveCoverage(order, entityGroups, ids, byId, h);
    if reservation.Refused? {
      return CannotReserve(reservation.entity, reservation.split);
    }
    ReservedAreIds(order, ids, byId, h, |order|);
    var p := PlaceGroups(ids, byId, reservation.a, targets, h);
    r := Finish(ids, byId, p, targets);
  }

  // ---------------------------------------------------------------- what reservations reach

  lemma SameCandidates(ids: seq<string>, byId: map<string, Group>, h: Hashes, e: string)
    requires Indexed(ids, byId)
    ensures forall id :: id in Candidates(ids, byId, h, e) <==> id in ids && e in byId[id].types
    ensures |Candidates(ids, byId, h, e)| == |Having(ids, byId, e)|
    ensures Distinct(ids) ==> Distinct(Candidates(ids, byId, h, e))
  {
    forall id
      ensures id in Candidates(ids, byId, h, e) <==> id in Having(ids, byId, e)
    {
      SameMembers(Having(ids, byId, e), CandidateLe(h, e), id);
    }
    SortKeepsDistinct(Having(ids, byId, e), CandidateLe(h, e));
    if Distinct(ids) {
      HavingDistinct(ids, byId, e);
    }
  }

  lemma {:induction false} ReservedAreIds(order: seq<string>, ids: seq<string>, byId: map<string, Group>, h: Hashes,
                                          n: nat)
    requires Indexed(ids, byId) && n <= |order| && ReserveAll(order, ids, byId, h, n).Reserved?
    ensures forall id :: id in ReserveAll(order, ids, byId, h, n).a ==> id in ids
  {
    hide Candidates, Having, Covered, ReserveUpTo, Distinct;
    if n > 0 {
      ReservedAreIds(order, ids, byId, h, n - 1);
      var a, cands := ReserveAll(order, ids, byId, h, n - 1).a, Candidates(ids, byId, h, order[n - 1]);
      SameCandidates(ids, byId, h, order[n - 1]);
      if |cands| >= 3 {
        ReserveCovers(order[n - 1], cands, a, 3);
      }
    }
  }

  /** Every entity considered so far with three candidates is covered in every split. */
  lemma {:induction false} AllCovered(order: seq<string>, ids: seq<string>, byId: map<string, Group>, h: Hashes,
                                      n: nat, i: nat, s: Split)
    requires Indexed(ids, byId) && i < n <= |order| && ReserveAll(order, ids, byId, h, n).Reserved?
    requires |Candidates(ids, byId, h, order[i])| >= 3
    ensures Covered(Candidates(ids, byId, h, order[i]), ReserveAll(order, ids, byId, h, n).a, s)
  {
    hide Candidates, Covered, ReserveUpTo, Indexed;
    var a, b, cands := ReserveAll(order, ids, byId, h, n - 1).a, ReserveAll(order, ids, byId, h, n).a,
        Candidates(ids, byId, h, order[n - 1]);
    if |cands| >= 3 {
      ReserveCovers(order[n - 1], cands, a, 3);
    }
    if i < n - 1 {
      AllCovered(order, ids, byId, h, n - 1, i, s);
      CoveredStays(Candidates(ids, byId, h, order[i]), a, b, s);
    } else {
      assert SPLITS[0] == Train && SPLITS[1] == Valid && SPLITS[2] == Test;
    }
  }
}
