/** Greedy allocation of canonical sentence groups to the three splits. */
module Allocation {
  import opened Targets
  import opened Sequences

  /** A sentence group: the hash of its tokens, its entity types without repeats, its length bin. */
  datatype Group = Group(id: string, types: seq<string>, bin: string)

  datatype Stratum = Stratum(types: seq<string>, bin: string)

  /** The seeded hashes that break every tie. */
  datatype Hashes = Hashes(coverage: (string, string) -> string, member: (Stratum, string) -> string,
                           tie: (string, Split) -> string)

  type Assignment = map<string, Split>

  // ---------------------------------------------------------------- indexes

  /** The keys of `by_id`, in insertion order. */
  function Ids(groups: seq<Group>): seq<string> {
    if groups == [] then []
    else
      var front, id := Ids(groups[..|groups| - 1]), groups[|groups| - 1].id;
      if id in front then front else front + [id]
  }

  /** `by_id`: the last group with an id wins. */
  function ById(groups: seq<Group>): map<string, Group> {
    if groups == [] then map[]
    else ById(groups[..|groups| - 1])[groups[|groups| - 1].id := groups[|groups| - 1]]
  }

  lemma {:induction false} IdsMeaning(groups: seq<Group>)
    ensures Distinct(Ids(groups))
    ensures forall id :: id in Ids(groups) <==> id in ById(groups)
    ensures forall id :: id in ById(groups) ==> ById(groups)[id].id == id
    ensures |Ids(groups)| <= |groups|
  {
    if groups != [] {
      IdsMeaning(groups[..|groups| - 1]);
    }
  }

  predicate UniqueIds(groups: seq<Group>) {
    forall i, j :: 0 <= i < j < |groups| ==> groups[i].id != groups[j].id
  }

  lemma {:induction false} IdIsListed(groups: seq<Group>, id: string)
    ensures id in Ids(groups) <==> exists k :: 0 <= k < |groups| && groups[k].id == id
  {
    if groups != [] {
      var front := groups[..|groups| - 1];
      IdIsListed(front, id);
      if k :| 0 <= k < |front| && front[k].id == id {
        assert groups[k].id == id;
      }
      assert groups[|groups| - 1].id == id ==> id in Ids(groups);
      if k :| 0 <= k < |groups| && groups[k].id == id {
        assert k < |front| ==> front[k].id == id;
      }
    }
  }

  /** Only repeated ids make the index shorter than the list. */
  lemma {:induction false} RepeatsShorten(groups: seq<Group>)
    ensures |Ids(groups)| == |groups| <==> UniqueIds(groups)
  {
    if groups != [] {
      var front, z := groups[..|groups| - 1], groups[|groups| - 1];
      RepeatsShorten(front);
      IdsMeaning(front);
      IdIsListed(front, z.id);
      if k :| 0 <= k < |front| && front[k].id == z.id {
        assert groups[k].id == groups[|groups| - 1].id;
      } else if UniqueIds(front) {
        forall i, j | 0 <= i < j < |groups|
          ensures groups[i].id != groups[j].id
        {
          assert front[i].id == groups[i].id;
          assert j < |front| ==> front[j] == groups[j];
        }
      } else {
        var i, j :| 0 <= i < j < |front| && front[i].id == front[j].id;
        assert groups[i].id == groups[j].id;
      }
    }
  }

  predicate Indexed(ids: seq<string>, byId: map<string, Group>) {
    forall i :: 0 <= i < |ids| ==> ids[i] in byId
  }

  /** `entity_groups[e]`: the ids of groups with entity type e. */
  function Having(ids: seq<string>, byId: map<string, Group>, e: string): (r: seq<string>)
    requires Indexed(ids, byId)
    ensures forall id :: id in r <==> id in ids && e in byId[id].types
  {
    if ids == [] then []
    else
      var id := ids[|ids| - 1];
      assert ids == ids[..|ids| - 1] + [id];
      Having(ids[..|ids| - 1], byId, e) + if e in byId[id].types then [id] else []
  }

  /** Elements of `more` not seen yet, appended in order. */
  function Union(seen: seq<string>, more: seq<string>): (r: seq<string>)
    ensures forall x :: x in r <==> x in seen || x in more
    ensures Distinct(seen) ==> Distinct(r)
  {
    if more == [] then seen
    else
      var front, x := Union(seen, more[..|more| - 1]), more[|more| - 1];
      assert more == more[..|more| - 1] + [x];
      if x in front then front else front + [x]
  }

  /** The keys of `entity_groups`, in insertion order. */
  function Entities(ids: seq<string>, byId: map<string, Group>): (r: seq<string>)
    requires Indexed(ids, byId)
    ensures Distinct(r)
    ensures forall e :: e in r <==> exists i :: 0 <= i < |ids| && e in byId[ids[i]].types
  {
    if ids == [] then []
    else
      var front, z := ids[..|ids| - 1], ids[|ids| - 1];
      assert forall i :: 0 <= i < |front| ==> front[i] == ids[i];
      Union(Entities(front, byId), byId[z].types)
  }

  lemma {:induction false} HavingDistinct(ids: seq<string>, byId: map<string, Group>, e: string)
    requires Indexed(ids, byId) && Distinct(ids)
    ensures Distinct(Having(ids, byId, e))
  {
    if ids != [] {
      HavingDistinct(ids[..|ids| - 1], byId, e);
    }
  }

  // ---------------------------------------------------------------- reserving coverage

  datatype Reservation = Reserved(a: Assignment) | Refused(entity: string, split: Split)

  predicate Covered(cands: seq<string>, a: Assignment, s: Split) {
    exists k :: 0 <= k < |cands| && cands[k] in a && a[cands[k]] == s
  }

  /** Index of the first unassigned candidate, or the length. */
  function FirstFree(cands: seq<string>, a: Assignment): (k: nat)
    ensures k <= |cands| && (k < |cands| ==> cands[k] !in a)
    ensures forall j :: 0 <= j < k ==> cands[j] in a
  {
    if cands == [] || cands[0] !in a then 0 else 1 + FirstFree(cands[1..], a)
  }

  function ReserveOne(e: string, cands: seq<string>, a: Assignment, s: Split): Reservation {
    if Covered(cands, a, s) then Reserved(a)
    else if FirstFree(cands, a) == |cands| then Refused(e, s)
    else Reserved(a[cands[FirstFree(cands, a)] := s])
  }

  /** The first k splits have been considered for entity e. */
  function ReserveUpTo(e: string, cands: seq<string>, a: Assignment, k: nat): Reservation
    requires k <= 3
  {
    if k == 0 then Reserved(a)
    else match ReserveUpTo(e, cands, a, k - 1)
      case Refused(f, s) => Refused(f, s)
      case Reserved(b) => ReserveOne(e, cands, b, SPLITS[k - 1])
  }

  function CandidateLe(h: Hashes, e: string): (string, string) -> bool {
    (x, y) => StringLe(h.coverage(e, x), h.coverage(e, y))
  }

  function Candidates(ids: seq<string>, byId: map<string, Group>, h: Hashes, e: string): seq<string>
    requires Indexed(ids, byId)
  {
    Sort(Having(ids, byId, e), CandidateLe(h, e))
  }

  /** Rarest entity first, then by name. */
  function RarestFirst(ids: seq<string>, byId: map<string, Group>): (string, string) -> bool
    requires Indexed(ids, byId)
  {
    (d, e) => var m, n := |Having(ids, byId, d)|, |Having(ids, byId, e)|; m < n || (m == n && StringLe(d, e))
  }

  function EntityOrder(ids: seq<string>, byId: map<string, Group>): seq<string>
    requires Indexed(ids, byId)
  {
    Sort(Entities(ids, byId), RarestFirst(ids, byId))
  }

  /** Reservations after the first n entities. */
  function ReserveAll(order: seq<string>, ids: seq<string>, byId: map<string, Group>, h: Hashes, n: nat): Reservation
    requires Indexed(ids, byId) && n <= |order|
  {
    if n == 0 then Reserved(map[])
    else match ReserveAll(order, ids, byId, h, n - 1)
      case Refused(f, s) => Refused(f, s)
      case Reserved(a) =>
        var cands := Candidates(ids, byId, h, order[n - 1]);
        if |cands| < 3 then Reserved(a) else ReserveUpTo(order[n - 1], cands, a, 3)
  }

  /** Everything assigned before is still assigned to the same split. */
  ghost predicate Extends(a: Assignment, b: Assignment) {
    forall id :: id in a ==> id in b && b[id] == a[id]
  }

  lemma CoveredStays(cands: seq<string>, a: Assignment, b: Assignment, s: Split)
    requires Covered(cands, a, s) && Extends(a, b)
    ensures Covered(cands, b, s)
  {
    var k :| 0 <= k < |cands| && cands[k] in a && a[cands[k]] == s;
    assert cands[k] in b && b[cands[k]] == s;
  }

  lemma {:induction false} ReserveCovers(e: string, cands: seq<string>, a: Assignment, k: nat)
    requires k <= 3 && ReserveUpTo(e, cands, a, k).Reserved?
    ensures Extends(a, ReserveUpTo(e, cands, a, k).a)
    ensures forall j :: 0 <= j < k ==> Covered(cands, ReserveUpTo(e, cands, a, k).a, SPLITS[j])
    ensures forall id :: id in ReserveUpTo(e, cands, a, k).a ==> id in a || id in cands
  {
    hide FirstFree, Covered, ReserveOne;
    if k > 0 {
      ReserveCovers(e, cands, a, k - 1);
      var b, c := ReserveUpTo(e, cands, a, k - 1).a, ReserveUpTo(e, cands, a, k).a;
      OneCovered(e, cands, b, SPLITS[k - 1]);
      forall j | 0 <= j < k
        ensures Covered(cands, c, SPLITS[j])
      {
        if j < k - 1 {
          CoveredStays(cands, b, c, SPLITS[j]);
        }
      }
    }
  }

  /** One reservation covers its split and moves nothing. */
  lemma OneCovered(e: string, cands: seq<string>, a: Assignment, s: Split)
    requires ReserveOne(e, cands, a, s).Reserved?
    ensures Extends(a, ReserveOne(e, cands, a, s).a) && Covered(cands, ReserveOne(e, cands, a, s).a, s)
    ensures forall id :: id in ReserveOne(e, cands, a, s).a ==> id in a || id in cands
  {
    if !Covered(cands, a, s) {
      assert cands[FirstFree(cands, a)] in ReserveOne(e, cands, a, s).a;
    }
  }

  /** Unassigned candidates. */
  function Free(cands: seq<string>, a: Assignment): nat {
    if cands == [] then 0 else (if cands[0] in a then 0 else 1) + Free(cands[1..], a)
  }

  /** Splits from the k-th on that no candidate covers. */
  function Uncovered(cands: seq<string>, a: Assignment, k: nat): nat
    requires k <= 3
    decreases 3 - k
  {
    if k == 3 then 0 else (if Covered(cands, a, SPLITS[k]) then 0 else 1) + Uncovered(cands, a, k + 1)
  }

  lemma {:induction false} FreeElsewhere(cands: seq<string>, a: Assignment, id: string, s: Split)
    requires id !in cands
    ensures Free(cands, a[id := s]) == Free(cands, a)
  {
    if cands != [] {
      FreeElsewhere(cands[1..], a, id, s);
    }
  }

  lemma {:induction false} FreeTaken(cands: seq<string>, a: Assignment, s: Split)
    requires Distinct(cands) && FirstFree(cands, a) < |cands|
    ensures Free(cands, a[cands[FirstFree(cands, a)] := s]) == Free(cands, a) - 1
  {
    var id := cands[FirstFree(cands, a)];
    if cands[0] in a {
      FreeTaken(cands[1..], a, s);
    } else {
      FreeElsewhere(cands[1..], a, id, s);
    }
  }

  lemma {:induction false} NoneFree(cands: seq<string>, a: Assignment)
    ensures Free(cands, a) == 0 <==> FirstFree(cands, a) == |cands|
  {
    if cands != [] {
      NoneFree(cands[1..], a);
    }
  }

  lemma {:induction false} UncoveredElsewhere(cands: seq<string>, a: Assignment, i: nat, s: Split, k: nat)
    requires i < |cands| && cands[i] !in a && k <= 3 && s !in SPLITS[k..]
    ensures Uncovered(cands, a[cands[i] := s], k) == Uncovered(cands, a, k)
    decreases 3 - k
  {
    if k < 3 {
      var b, t := a[cands[i] := s], SPLITS[k];
      assert t in SPLITS[k..] && SPLITS[k..][1..] == SPLITS[k + 1..];
      UncoveredElsewhere(cands, a, i, s, k + 1);
      if Covered(cands, a, t) {
        CoveredStays(cands, a, b, t);
      }
    }
  }

  /** One split: a shortage before is a shortage after, and a refusal is a shortage. */
  lemma ReserveStep(e: string, cands: seq<string>, a: Assignment, k: nat)
    requires Distinct(cands) && k < 3
    ensures match ReserveOne(e, cands, a, SPLITS[k])
            case Refused(_, _) => Uncovered(cands, a, k) > Free(cands, a)
            case Reserved(b) => Uncovered(cands, a, k) - Free(cands, a) == Uncovered(cands, b, k + 1) - Free(cands, b)
  {
    NoneFree(cands, a);
    var s, i := SPLITS[k], FirstFree(cands, a);
    if !Covered(cands, a, s) && i < |cands| {
      FreeTaken(cands, a, s);
      UncoveredElsewhere(cands, a, i, s, k + 1);
    }
  }

  /** Main result. An entity is refused exactly when more splits lack it than it has unassigned groups. */
  lemma RefusedIff(e: string, cands: seq<string>, a: Assignment)
    requires Distinct(cands)
    ensures ReserveUpTo(e, cands, a, 3).Refused? <==> Uncovered(cands, a, 0) > Free(cands, a)
  {
    hide Free, Uncovered, ReserveOne;
    ReserveStep(e, cands, a, 0);
    var one, two := ReserveUpTo(e, cands, a, 1), ReserveUpTo(e, cands, a, 2);
    assert one == ReserveOne(e, cands, a, SPLITS[0]) by { assert ReserveUpTo(e, cands, a, 0) == Reserved(a); }
    if one.Reserved? {
      ReserveStep(e, cands, one.a, 1);
      if two.Reserved? {
        ReserveStep(e, cands, two.a, 2);
        NoSplitLeft(cands, ReserveUpTo(e, cands, a, 3));
      }
    }
  }

  lemma NoSplitLeft(cands: seq<string>, r: Reservation)
    ensures r.Reserved? ==> Uncovered(cands, r.a, 3) == 0
  {
  }
}
