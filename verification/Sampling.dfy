/** Balanced sampling: representatives, strata, and the round-robin draw. */
module Sampling {
  import opened Sequences

  // ---------------------------------------------------------------- dealing from groups in turn

  /** What round r takes from the first i groups. */
  function Round<T>(groups: seq<seq<T>>, r: nat, i: nat): seq<T>
    requires i <= |groups|
  {
    if i == 0 then [] else Round(groups, r, i - 1) + if r < |groups[i - 1]| then [groups[i - 1][r]] else []
  }

  function Rounds<T>(groups: seq<seq<T>>, r: nat): seq<T> {
    if r == 0 then [] else Rounds(groups, r - 1) + Round(groups, r - 1, |groups|)
  }

  /** After r full rounds and i groups of the next. */
  function Dealt<T>(groups: seq<seq<T>>, r: nat, i: nat): seq<T>
    requires i <= |groups|
  {
    Rounds(groups, r) + Round(groups, r, i)
  }

  function Min(a: nat, b: nat): nat {
    if a < b then a else b
  }

  function Total<T>(groups: seq<seq<T>>): nat {
    if groups == [] then 0 else Total(groups[..|groups| - 1]) + |groups[|groups| - 1]|
  }

  function Longest<T>(groups: seq<seq<T>>): (m: nat)
    ensures forall j :: 0 <= j < |groups| ==> |groups[j]| <= m
  {
    if groups == [] then 0
    else
      var m, n := Longest(groups[..|groups| - 1]), |groups[|groups| - 1]|;
      assert forall j :: 0 <= j < |groups| - 1 ==> groups[..|groups| - 1][j] == groups[j];
      if m < n then n else m
  }

  /** Everything, in dealing order. */
  function Deal<T>(groups: seq<seq<T>>): seq<T> {
    Rounds(groups, Longest(groups))
  }

  /** How many group j has given after r rounds and i groups. */
  function Given<T>(groups: seq<seq<T>>, r: nat, i: nat, j: nat): nat
    requires j < |groups|
  {
    Min(|groups[j]|, if j < i then r + 1 else r)
  }

  /** What the first n groups have given. */
  function GivenSum<T>(groups: seq<seq<T>>, r: nat, i: nat, n: nat): nat
    requires n <= |groups|
  {
    if n == 0 then 0 else GivenSum(groups, r, i, n - 1) + Given(groups, r, i, n - 1)
  }

  lemma {:induction false} GivenBefore<T>(groups: seq<seq<T>>, r: nat, i: nat, n: nat)
    requires n <= i < |groups|
    ensures GivenSum(groups, r, i + 1, n) == GivenSum(groups, r, i, n)
  {
    if n > 0 {
      GivenBefore(groups, r, i, n - 1);
    }
  }

  /** One more group deals one more item, if it has any left. */
  lemma {:induction false} GivenStep<T>(groups: seq<seq<T>>, r: nat, i: nat, n: nat)
    requires i < n <= |groups|
    ensures GivenSum(groups, r, i + 1, n) == GivenSum(groups, r, i, n) + if r < |groups[i]| then 1 else 0
  {
    if n == i + 1 {
      GivenBefore(groups, r, i, i);
    } else {
      GivenStep(groups, r, i, n - 1);
    }
  }

  lemma {:induction false} GivenRound<T>(groups: seq<seq<T>>, r: nat, n: nat)
    requires n <= |groups|
    ensures GivenSum(groups, r, |groups|, n) == GivenSum(groups, r + 1, 0, n)
  {
    if n > 0 {
      GivenRound(groups, r, n - 1);
    }
  }

  lemma {:induction false} DealtSize<T>(groups: seq<seq<T>>, r: nat, i: nat)
    requires i <= |groups|
    ensures |Dealt(groups, r, i)| == GivenSum(groups, r, i, |groups|)
    decreases r, i
  {
    if i > 0 {
      DealtSize(groups, r, i - 1);
      GivenStep(groups, r, i - 1, |groups|);
    } else if r > 0 {
      DealtSize(groups, r - 1, |groups|);
      GivenRound(groups, r - 1, |groups|);
    } else {
      NothingGiven(groups, |groups|);
    }
  }

  lemma {:induction false} NothingGiven<T>(groups: seq<seq<T>>, n: nat)
    requires n <= |groups|
    ensures GivenSum(groups, 0, 0, n) == 0
  {
    if n > 0 {
      NothingGiven(groups, n - 1);
    }
  }

  lemma {:induction false} GivenAtMost<T>(groups: seq<seq<T>>, r: nat, i: nat, n: nat)
    requires n <= |groups|
    ensures GivenSum(groups, r, i, n) <= Total(groups[..n])
    ensures GivenSum(groups, r, i, n) == Total(groups[..n]) <==> forall j :: 0 <= j < n ==>
              |groups[j]| == Given(groups, r, i, j)
  {
    if n > 0 {
      GivenAtMost(groups, r, i, n - 1);
      assert groups[..n][..n - 1] == groups[..n - 1];
    }
  }

  lemma DealtAll<T>(groups: seq<seq<T>>, r: nat, i: nat)
    requires i <= |groups|
    ensures |Dealt(groups, r, i)| <= Total(groups)
    ensures |Dealt(groups, r, i)| == Total(groups) <==> forall j :: 0 <= j < |groups| ==>
              |groups[j]| == Given(groups, r, i, j)
  {
    DealtSize(groups, r, i);
    GivenAtMost(groups, r, i, |groups|);
    assert groups[..|groups|] == groups;
  }

  predicate PrefixOf<T(==)>(a: seq<T>, b: seq<T>) {
    |a| <= |b| && a == b[..|a|]
  }

  lemma PrefixChain<T>(a: seq<T>, b: seq<T>, c: seq<T>)
    requires PrefixOf(a, b) && PrefixOf(b, c)
    ensures PrefixOf(a, c)
  {
  }

  lemma WholeRound<T>(groups: seq<seq<T>>, r: nat)
    ensures PrefixOf(Dealt(groups, r, |groups|), Rounds(groups, r + 1))
  {
  }

  lemma OneGroupMore<T>(groups: seq<seq<T>>, r: nat, i: nat)
    requires i < |groups|
    ensures PrefixOf(Dealt(groups, r, i), Dealt(groups, r, i + 1))
  {
  }

  lemma {:induction false} RoundPrefix<T>(groups: seq<seq<T>>, r: nat, i: nat)
    requires i <= |groups|
    ensures PrefixOf(Dealt(groups, r, i), Rounds(groups, r + 1))
    decreases |groups| - i
  {
    hide PrefixOf, Dealt;
    if i == |groups| {
      WholeRound(groups, r);
    } else {
      RoundPrefix(groups, r, i + 1);
      OneGroupMore(groups, r, i);
      PrefixChain(Dealt(groups, r, i), Dealt(groups, r, i + 1), Rounds(groups, r + 1));
    }
  }

  lemma {:induction false} RoundsPrefix<T>(groups: seq<seq<T>>, r: nat, q: nat)
    requires r <= q
    ensures PrefixOf(Rounds(groups, r), Rounds(groups, q))
    decreases q - r
  {
    if r < q {
      RoundsPrefix(groups, r, q - 1);
      PrefixChain(Rounds(groups, r), Rounds(groups, q - 1), Rounds(groups, q));
    }
  }

  lemma {:induction false} NoMoreRounds<T>(groups: seq<seq<T>>, r: nat, i: nat)
    requires Longest(groups) <= r && i <= |groups|
    ensures Round(groups, r, i) == []
  {
    if i > 0 {
      NoMoreRounds(groups, r, i - 1);
    }
  }

  lemma {:induction false} LateRounds<T>(groups: seq<seq<T>>, r: nat)
    requires Longest(groups) <= r
    ensures Rounds(groups, r) == Deal(groups)
  {
    hide Round, Longest;
    if Longest(groups) < r {
      LateRounds(groups, r - 1);
      NoMoreRounds(groups, r - 1, |groups|);
    }
  }

  /** Every stage of the draw is a prefix of the whole deal. */
  lemma DealtPrefix<T>(groups: seq<seq<T>>, r: nat, i: nat)
    requires i <= |groups|
    ensures PrefixOf(Dealt(groups, r, i), Deal(groups))
    ensures |Deal(groups)| == Total(groups)
  {
    hide Dealt, Rounds, PrefixOf;
    var m := if r + 1 < Longest(groups) then Longest(groups) else r + 1;
    RoundPrefix(groups, r, i);
    RoundsPrefix(groups, r + 1, m);
    PrefixChain(Dealt(groups, r, i), Rounds(groups, r + 1), Rounds(groups, m));
    LateRounds(groups, m);
    DealtAll(groups, Longest(groups), 0);
    NoRoundYet(groups, Longest(groups));
  }

  lemma NoRoundYet<T>(groups: seq<seq<T>>, r: nat)
    ensures Dealt(groups, r, 0) == Rounds(groups, r)
  {
  }

  /** The draw stands after r rounds and i groups. */
  ghost predicate At<T>(groups: seq<seq<T>>, r: nat, i: nat, selected: seq<T>, taken: seq<nat>) {
    && i <= |groups| && selected == Dealt(groups, r, i) && |taken| == |groups|
    && forall j :: 0 <= j < |groups| ==> taken[j] == Given(groups, r, i, j)
  }

  lemma RoundEnds<T>(groups: seq<seq<T>>, r: nat, selected: seq<T>, taken: seq<nat>)
    requires At(groups, r, |groups|, selected, taken)
    ensures At(groups, r + 1, 0, selected, taken)
  {
    assert Dealt(groups, r, |groups|) == Dealt(groups, r + 1, 0);
  }

  lemma StartsDealt<T>(groups: seq<seq<T>>)
    ensures At(groups, 0, 0, [], seq(|groups|, _ => 0))
  {
  }

  lemma AtSize<T>(groups: seq<seq<T>>, r: nat, i: nat, selected: seq<T>, taken: seq<nat>)
    requires At(groups, r, i, selected, taken)
    ensures |taken| == |groups| && |selected| <= Total(groups)
    ensures |selected| == Total(groups) <==> forall j :: 0 <= j < |groups| ==> taken[j] == |groups[j]|
  {
    hide Dealt, Given, Total;
    DealtAll(groups, r, i);
  }

  /** One group's turn: it gives its next member unless it has none left. */
  lemma NextGroup<T>(groups: seq<seq<T>>, r: nat, i: nat, selected: seq<T>, taken: seq<nat>)
    requires At(groups, r, i, selected, taken) && i < |groups|
    ensures |taken| == |groups| && taken[i] <= |groups[i]|
    ensures if taken[i] < |groups[i]| then
              At(groups, r, i + 1, selected + [groups[i][taken[i]]], taken[i := taken[i] + 1])
            else At(groups, r, i + 1, selected, taken)
  {
  }

  /** The round-robin loop. */
  method Draw<T>(groups: seq<seq<T>>, size: nat) returns (selected: seq<T>, taken: seq<nat>, ghost r: nat, ghost i: nat)
    ensures At(groups, r, i, selected, taken)
    ensures |selected| == Min(size, Total(groups))
  {
    hide Total, At;
    selected, taken, r, i := [], seq(|groups|, _ => 0), 0, 0;
    StartsDealt(groups);
    while |selected| < Min(size, Total(groups))
      invariant At(groups, r, i, selected, taken) && |selected| <= Min(size, Total(groups))
      invariant |selected| < Min(size, Total(groups)) ==> i == 0
      decreases Total(groups) - |selected|
    {
      ghost var before := |selected|;
      var k := 0;
      AtSize(groups, r, i, selected, taken);
      while k < |groups|
        invariant k <= |groups| == |taken| && At(groups, r, i, selected, taken)
                  && |selected| <= Min(size, Total(groups))
        invariant if |selected| < size then i == k else |selected| == size
        invariant |selected| == before ==> forall j :: 0 <= j < k ==> taken[j] == |groups[j]|
        invariant before <= |selected|
      {
        if |selected| >= size {
          break;
        }
        NextGroup(groups, r, i, selected, taken);
        if taken[k] < |groups[k]| {
          selected := selected + [groups[k][taken[k]]];
          taken := taken[k := taken[k] + 1];
        }
        i, k := k + 1, k + 1;
        AtSize(groups, r, i, selected, taken);
      }
      if |selected| < size {
        AtSize(groups, r, i, selected, taken);
        RoundEnds(groups, r, selected, taken);
        r, i := r + 1, 0;
      }
    }
  }

  // ---------------------------------------------------------------- the members dealt

  /** What group j has given. */
  function Part<T(==)>(groups: seq<seq<T>>, r: nat, i: nat, j: nat): multiset<T>
    requires j < |groups|
  {
    multiset(groups[j][..Given(groups, r, i, j)])
  }

  function GivenBag<T(==)>(groups: seq<seq<T>>, r: nat, i: nat, n: nat): multiset<T>
    requires n <= |groups|
  {
    if n == 0 then multiset{} else GivenBag(groups, r, i, n - 1) + Part(groups, r, i, n - 1)
  }

  /** The item round r takes from group i. */
  function Item<T(==)>(groups: seq<seq<T>>, r: nat, i: nat): multiset<T>
    requires i < |groups|
  {
    if r < |groups[i]| then multiset{groups[i][r]} else multiset{}
  }

  lemma PartStep<T>(groups: seq<seq<T>>, r: nat, i: nat, j: nat)
    requires i < |groups| && j < |groups|
    ensures Part(groups, r, i + 1, j) == if i == j then Part(groups, r, i, j) + Item(groups, r, i)
            else Part(groups, r, i, j)
    ensures Part(groups, r, |groups|, j) == Part(groups, r + 1, 0, j)
  {
    if r < |groups[i]| {
      assert groups[i][..r + 1] == groups[i][..r] + [groups[i][r]];
    }
  }

  lemma {:induction false} BagBefore<T>(groups: seq<seq<T>>, r: nat, i: nat, n: nat)
    requires n <= i < |groups|
    ensures GivenBag(groups, r, i + 1, n) == GivenBag(groups, r, i, n)
  {
    hide Part;
    if n > 0 {
      BagBefore(groups, r, i, n - 1);
      PartStep(groups, r, i, n - 1);
    }
  }

  lemma Rearrange<T>(a: multiset<T>, b: multiset<T>, c: multiset<T>)
    ensures a + b + c == a + (b + c) && a + b + c == a + c + b
  {
  }

  lemma {:induction false} BagStep<T>(groups: seq<seq<T>>, r: nat, i: nat, n: nat)
    requires i < n <= |groups|
    ensures GivenBag(groups, r, i + 1, n) == GivenBag(groups, r, i, n) + Item(groups, r, i)
  {
    hide Part, Item;
    PartStep(groups, r, i, n - 1);
    Rearrange(GivenBag(groups, r, i, n - 1), Part(groups, r, i, n - 1), Item(groups, r, i));
    if n == i + 1 {
      BagBefore(groups, r, i, i);
    } else {
      BagStep(groups, r, i, n - 1);
    }
  }

  lemma {:induction false} BagRound<T>(groups: seq<seq<T>>, r: nat, n: nat)
    requires n <= |groups|
    ensures GivenBag(groups, r, |groups|, n) == GivenBag(groups, r + 1, 0, n)
  {
    hide Part;
    if n > 0 {
      BagRound(groups, r, n - 1);
      PartStep(groups, r, n - 1, n - 1);
    }
  }

  lemma {:induction false} NoBag<T>(groups: seq<seq<T>>, n: nat)
    requires n <= |groups|
    ensures GivenBag(groups, 0, 0, n) == multiset{}
  {
    if n > 0 {
      NoBag(groups, n - 1);
    }
  }

  lemma DealtItem<T>(groups: seq<seq<T>>, r: nat, i: nat)
    requires 0 < i <= |groups|
    ensures multiset(Dealt(groups, r, i)) == multiset(Dealt(groups, r, i - 1)) + Item(groups, r, i - 1)
  {
    assert Dealt(groups, r, i) == Dealt(groups, r, i - 1) + if r < |groups[i - 1]| then [groups[i - 1][r]] else [];
  }

  lemma {:induction false} DealtBag<T>(groups: seq<seq<T>>, r: nat, i: nat)
    requires i <= |groups|
    ensures multiset(Dealt(groups, r, i)) == GivenBag(groups, r, i, |groups|)
    decreases r, i
  {
    hide Part, Item, Round;
    if i > 0 {
      DealtBag(groups, r, i - 1);
      BagStep(groups, r, i - 1, |groups|);
      DealtItem(groups, r, i);
    } else if r > 0 {
      DealtBag(groups, r - 1, |groups|);
      BagRound(groups, r - 1, |groups|);
      RoundEnd(groups, r - 1);
    } else {
      NoBag(groups, |groups|);
      NothingDealt(groups);
    }
  }

  lemma RoundEnd<T>(groups: seq<seq<T>>, r: nat)
    ensures Dealt(groups, r, |groups|) == Dealt(groups, r + 1, 0)
  {
  }

  lemma NothingDealt<T>(groups: seq<seq<T>>)
    ensures Dealt(groups, 0, 0) == []
  {
  }

  function Bag<T(==)>(groups: seq<seq<T>>): multiset<T> {
    if groups == [] then multiset{} else Bag(groups[..|groups| - 1]) + multiset(groups[|groups| - 1])
  }

  lemma {:induction false} FullBag<T>(groups: seq<seq<T>>, r: nat, n: nat)
    requires Longest(groups) <= r && n <= |groups|
    ensures GivenBag(groups, r, 0, n) == Bag(groups[..n])
  {
    if n > 0 {
      FullBag(groups, r, n - 1);
      assert groups[..n][..n - 1] == groups[..n - 1];
      assert groups[n - 1][..|groups[n - 1]|] == groups[n - 1];
    }
  }

  /** The whole deal is a rearrangement of the groups. */
  lemma DealIsAll<T>(groups: seq<seq<T>>)
    ensures multiset(Deal(groups)) == Bag(groups)
  {
    DealtBag(groups, Longest(groups), 0);
    assert Dealt(groups, Longest(groups), 0) == Deal(groups);
    FullBag(groups, Longest(groups), |groups|);
    assert groups[..|groups|] == groups;
  }

  // ---------------------------------------------------------------- candidates

  datatype Candidate = Candidate(eventId: string, stratum: string, textSha: string, dedup: string)

  function ByEvent(): (Candidate, Candidate) -> bool {
    (x: Candidate, y: Candidate) => StringLe(x.eventId, y.eventId)
  }

  predicate Seen(xs: seq<Candidate>, dedup: string) {
    exists i :: 0 <= i < |xs| && xs[i].dedup == dedup
  }

  /** `setdefault` by dedup hash: the first of each. */
  function FirstEach(xs: seq<Candidate>): (r: seq<Candidate>)
    ensures forall x :: x in r ==> x in xs
    ensures forall i :: 0 <= i < |xs| ==> Seen(r, xs[i].dedup)
    ensures forall i, j :: 0 <= i < j < |r| ==> r[i].dedup != r[j].dedup
  {
    if xs == [] then []
    else
      var front, z := FirstEach(xs[..|xs| - 1]), xs[|xs| - 1];
      assert xs == xs[..|xs| - 1] + [z];
      if Seen(front, z.dedup) then front
      else
        assert (front + [z])[|front|].dedup == z.dedup;
        assert forall d :: Seen(front, d) ==> Seen(front + [z], d) by { SeenStays(front, z); }
        front + [z]
  }

  lemma SeenStays(front: seq<Candidate>, z: Candidate)
    ensures forall d :: Seen(front, d) ==> Seen(front + [z], d)
  {
    forall d | Seen(front, d)
      ensures Seen(front + [z], d)
    {
      var i :| 0 <= i < |front| && front[i].dedup == d;
      assert (front + [z])[i].dedup == d;
    }
  }

  function Representatives(candidates: seq<Candidate>): seq<Candidate> {
    FirstEach(Sort(candidates, ByEvent()))
  }

  function Strata(reps: seq<Candidate>): (r: seq<string>)
    ensures Distinct(r)
    ensures forall i :: 0 <= i < |reps| ==> reps[i].stratum in r
    ensures forall k :: k in r ==> exists i :: 0 <= i < |reps| && reps[i].stratum == k
  {
    if reps == [] then []
    else
      var front, z := Strata(reps[..|reps| - 1]), reps[|reps| - 1];
      assert forall i :: 0 <= i < |reps| - 1 ==> reps[..|reps| - 1][i] == reps[i];
      if z.stratum in front then front else front + [z.stratum]
  }

  function InStratum(reps: seq<Candidate>, k: string): (r: seq<Candidate>)
    ensures forall x :: x in r <==> x in reps && x.stratum == k
  {
    if reps == [] then []
    else
      var z := reps[|reps| - 1];
      assert reps == reps[..|reps| - 1] + [z];
      InStratum(reps[..|reps| - 1], k) + if z.stratum == k then [z] else []
  }

  /** Hash ranking within a stratum. */
  function Ranking(digest: string -> string, seed: string): (Candidate, Candidate) -> bool {
    (x: Candidate, y: Candidate) =>
        var a, b := digest(seed + ":" + "doc-" + x.textSha), digest(seed + ":" + "doc-" + y.textSha);
              if a == b then StringLe(x.eventId, y.eventId) else StringLe(a, b)
  }

  function StrataRanking(digest: string -> string, seed: string): (string, string) -> bool {
    (x, y) => if digest(seed + x) == digest(seed + y) then StringLe(x, y)
      else StringLe(digest(seed + x), digest(seed + y))
  }

  function OrderedStrata(reps: seq<Candidate>, digest: string -> string, seed: string): seq<string> {
    Sort(Strata(reps), StrataRanking(digest, seed))
  }

  /** The ranked strata, in their order. */
  function GroupsOf(keys: seq<string>, reps: seq<Candidate>, digest: string -> string,
                    seed: string): (g: seq<seq<Candidate>>)
    ensures |g| == |keys| && forall j :: 0 <= j < |keys| ==>
              g[j] == Sort(InStratum(reps, keys[j]), Ranking(digest, seed))
  {
    seq(|keys|, j requires 0 <= j < |keys| => Sort(InStratum(reps, keys[j]), Ranking(digest, seed)))
  }

  // ---------------------------------------------------------------- every representative is in one group

  function InStrata(reps: seq<Candidate>, ks: seq<string>): seq<Candidate> {
    if reps == [] then []
    else InStrata(reps[..|reps| - 1], ks) + if reps[|reps| - 1].stratum in ks then [reps[|reps| - 1]] else []
  }

  lemma InStrataLast(reps: seq<Candidate>, ks: seq<string>)
    requires reps != []
    ensures var front, z := reps[..|reps| - 1], reps[|reps| - 1];
            multiset(InStrata(reps, ks)) == multiset(InStrata(front, ks)) + if z.stratum in ks then multiset{z}
              else multiset{}
  {
  }

  lemma InStratumBag(reps: seq<Candidate>, k: string)
    requires reps != []
    ensures var front, z := reps[..|reps| - 1], reps[|reps| - 1];
            multiset(InStratum(reps, k)) == multiset(InStratum(front, k)) + if z.stratum == k then multiset{z}
              else multiset{}
  {
  }

  lemma {:induction false} OneMoreStratum(reps: seq<Candidate>, ks: seq<string>, k: string)
    requires k !in ks
    ensures multiset(InStrata(reps, ks + [k])) == multiset(InStrata(reps, ks)) + multiset(InStratum(reps, k))
  {
    hide InStrata, InStratum;
    if reps == [] {
      NothingInStrata(ks, k);
    } else {
      OneMoreStratum(reps[..|reps| - 1], ks, k);
      InStrataLast(reps, ks + [k]);
      InStrataLast(reps, ks);
      InStratumBag(reps, k);
    }
  }

  lemma NothingInStrata(ks: seq<string>, k: string)
    ensures InStrata([], ks) == [] && InStrata([], ks + [k]) == [] && InStratum([], k) == []
  {
  }

  lemma {:induction false} NoStrata(reps: seq<Candidate>)
    ensures InStrata(reps, []) == []
  {
    if reps != [] {
      NoStrata(reps[..|reps| - 1]);
    }
  }

  lemma {:induction false} AllStrata(reps: seq<Candidate>, ks: seq<string>)
    requires forall i :: 0 <= i < |reps| ==> reps[i].stratum in ks
    ensures InStrata(reps, ks) == reps
  {
    if reps != [] {
      AllStrata(reps[..|reps| - 1], ks);
    }
  }

  lemma {:induction false} BagOfStrata(keys: seq<string>, n: nat, reps: seq<Candidate>, digest: string -> string,
                                       seed: string)
    requires n <= |keys| && Distinct(keys)
    ensures Bag(GroupsOf(keys, reps, digest, seed)[..n]) == multiset(InStrata(reps, keys[..n]))
  {
    hide Sort, InStrata, InStratum;
    var groups := GroupsOf(keys, reps, digest, seed);
    if n == 0 {
      NoStrata(reps);
    } else {
      BagOfStrata(keys, n - 1, reps, digest, seed);
      assert keys[..n] == keys[..n - 1] + [keys[n - 1]] && keys[n - 1] !in keys[..n - 1];
      assert groups[..n][..n - 1] == groups[..n - 1];
      OneMoreStratum(reps, keys[..n - 1], keys[n - 1]);
    }
  }

  lemma OrderedCover(reps: seq<Candidate>, digest: string -> string, seed: string)
    ensures var keys := OrderedStrata(reps, digest, seed);
            Distinct(keys) && |keys| == |Strata(reps)| && (forall x :: x in reps ==> x.stratum in keys)
    ensures forall k :: k in OrderedStrata(reps, digest, seed) ==> InStratum(reps, k) != []
  {
    SortKeepsDistinct(Strata(reps), StrataRanking(digest, seed));
    forall k
      ensures k in OrderedStrata(reps, digest, seed) <==> k in Strata(reps)
    {
      SameMembers(Strata(reps), StrataRanking(digest, seed), k);
    }
    forall k | k in OrderedStrata(reps, digest, seed)
      ensures InStratum(reps, k) != []
    {
      var i :| 0 <= i < |reps| && reps[i].stratum == k;
      assert reps[i] in InStratum(reps, k);
    }
  }

  function Groups(reps: seq<Candidate>, digest: string -> string, seed: string): seq<seq<Candidate>> {
    GroupsOf(OrderedStrata(reps, digest, seed), reps, digest, seed)
  }

  lemma {:induction false} TotalIsBag<T>(groups: seq<seq<T>>)
    ensures Total(groups) == |Bag(groups)|
  {
    if groups != [] {
      TotalIsBag(groups[..|groups| - 1]);
    }
  }

  lemma GroupsPartition(reps: seq<Candidate>, digest: string -> string, seed: string)
    ensures Bag(Groups(reps, digest, seed)) == multiset(reps) && Total(Groups(reps, digest, seed)) == |reps|
  {
    hide Bag, Total, InStrata, OrderedStrata, Distinct;
    var keys, groups := OrderedStrata(reps, digest, seed), Groups(reps, digest, seed);
    OrderedCover(reps, digest, seed);
    BagOfStrata(keys, |keys|, reps, digest, seed);
    assert groups[..|groups|] == groups && keys[..|keys|] == keys;
    AllStrata(reps, keys);
    TotalIsBag(groups);
  }

  // ---------------------------------------------------------------- the sample

  datatype Stats = Stats(population: nat, selected: nat, probability: real, weight: real)

  datatype Outcome = ValueError | Sampled(selected: seq<Candidate>, unique: nat, strata: map<string, Stats>)

  function Count(xs: seq<Candidate>, k: string): nat {
    |InStratum(xs, k)|
  }

  /** The draw of the first n items. */
  function SampleOf(reps: seq<Candidate>, size: nat, digest: string -> string, seed: string): (r: seq<Candidate>)
    ensures |r| == Min(size, |reps|)
  {
    var deal := Deal(Groups(reps, digest, seed));
    GroupsPartition(reps, digest, seed);
    DealtPrefix(Groups(reps, digest, seed), 0, 0);
    deal[..Min(size, |reps|)]
  }

  method FindRepresentatives(candidates: seq<Candidate>) returns (reps: seq<Candidate>)
    ensures reps == Representatives(candidates)
  {
    var sorted := Sort(candidates, ByEvent());
    reps := [];
    for k := 0 to |sorted|
      invariant reps == FirstEach(sorted[..k])
    {
      assert sorted[..k + 1][..k] == sorted[..k];
      if !Seen(reps, sorted[k].dedup) {
        reps := reps + [sorted[k]];
      }
    }
    assert sorted[..|sorted|] == sorted;
  }

  lemma NextRepresentative(reps: seq<Candidate>, n: nat)
    requires n < |reps|
    ensures var front, k := Strata(reps[..n]), reps[n].stratum;
            Strata(reps[..n + 1]) == if k in front then front else front + [k]
    ensures forall k :: InStratum(reps[..n + 1], k)
                        == InStratum(reps[..n], k) + if reps[n].stratum == k then [reps[n]] else []
  {
    assert reps[..n + 1][..n] == reps[..n];
  }

  lemma NoRepresentatives()
    ensures Strata([]) == [] && forall k :: InStratum([], k) == []
  {
  }

  /** One representative joins its stratum. */
  method AddToStratum(x: Candidate, keys0: seq<string>, strata0: map<string, seq<Candidate>>)
    returns (keys: seq<string>, strata: map<string, seq<Candidate>>)
    ensures keys == if x.stratum in keys0 then keys0 else keys0 + [x.stratum]
    ensures forall k :: Listed(strata, k) == Listed(strata0, k) + if x.stratum == k then [x] else []
  {
    keys := if x.stratum in keys0 then keys0 else keys0 + [x.stratum];
    strata := Appended(strata0, x.stratum, x);
  }

  method StratifyRepresentatives(reps: seq<Candidate>) returns (keys: seq<string>, strata: map<string, seq<Candidate>>)
    ensures keys == Strata(reps) && forall k :: Listed(strata, k) == InStratum(reps, k)
  {
    hide Strata, InStratum;
    keys, strata := [], map[];
    NoRepresentatives();
    assert reps[..0] == [];
    for n := 0 to |reps|
      invariant keys == Strata(reps[..n])
      invariant forall k :: Listed(strata, k) == InStratum(reps[..n], k)
    {
      NextRepresentative(reps, n);
      keys, strata := AddToStratum(reps[n], keys, strata);
    }
    assert reps[..|reps|] == reps;
  }

  /** Weights and probabilities of a stratum that gave at least one document. */
  function StatsOf(reps: seq<Candidate>, selected: seq<Candidate>, k: string): Stats
    requires Count(selected, k) > 0 && Count(reps, k) > 0
  {
    var population, n := Count(reps, k), Count(selected, k);
    Stats(population, n, n as real / population as real, population as real / n as real)
  }

  // ---------------------------------------------------------------- what each stratum gave

  lemma InStratumLast(xs: seq<Candidate>, z: Candidate, k: string)
    ensures InStratum(xs + [z], k) == if z.stratum == k then InStratum(xs, k) + [z] else InStratum(xs, k)
  {
    assert (xs + [z])[..|xs|] == xs;
  }

  lemma {:induction false} InStratumConcat(a: seq<Candidate>, b: seq<Candidate>, k: string)
    ensures InStratum(a + b, k) == InStratum(a, k) + InStratum(b, k)
  {
    hide InStratum;
    if b == [] {
      assert a + b == a;
      NoneInStratum(k);
    } else {
      var front, z := b[..|b| - 1], b[|b| - 1];
      InStratumConcat(a, front, k);
      InStratumLast(a + front, z, k);
      InStratumLast(front, z, k);
      assert a + b == (a + front) + [z] && b == front + [z];
    }
  }

  /** Group j holds stratum keys[j]. */
  ghost predicate Labelled(groups: seq<seq<Candidate>>, keys: seq<string>) {
    && |groups| == |keys| && Distinct(keys)
    && forall j :: 0 <= j < |groups| ==> forall x :: x in groups[j] ==> x.stratum == keys[j]
  }

  lemma SingleCount(x: Candidate, k: string)
    ensures Count([x], k) == if x.stratum == k then 1 else 0
  {
    var one, none: seq<Candidate> := [x], [];
    assert one[..|one| - 1] == none && InStratum(none, k) == none;
  }

  lemma ItemCount(groups: seq<seq<Candidate>>, keys: seq<string>, r: nat, i: nat, j: nat)
    requires Labelled(groups, keys) && i < |groups| && j < |groups|
    ensures var item := if r < |groups[i]| then [groups[i][r]] else [];
            Count(item, keys[j]) == if i == j && r < |groups[i]| then 1 else 0
  {
    if r < |groups[i]| {
      assert groups[i][r] in groups[i];
      SingleCount(groups[i][r], keys[j]);
    }
  }

  lemma DealtStep(groups: seq<seq<Candidate>>, keys: seq<string>, r: nat, i: nat, j: nat)
    requires Labelled(groups, keys) && i < |groups| && j < |groups|
    ensures Count(Dealt(groups, r, i + 1), keys[j])
            == Count(Dealt(groups, r, i), keys[j]) + if i == j && r < |groups[i]| then 1 else 0
  {
    var item := if r < |groups[i]| then [groups[i][r]] else [];
    assert Dealt(groups, r, i + 1) == Dealt(groups, r, i) + item;
    ItemCount(groups, keys, r, i, j);
    InStratumConcat(Dealt(groups, r, i), item, keys[j]);
  }

  lemma {:induction false} CountDealt(groups: seq<seq<Candidate>>, keys: seq<string>, r: nat, i: nat, j: nat)
    requires Labelled(groups, keys) && i <= |groups| && j < |groups| == |keys|
    ensures Count(Dealt(groups, r, i), keys[j]) == Given(groups, r, i, j)
    decreases r, i
  {
    hide Dealt, Count, Labelled;
    if i > 0 {
      CountDealt(groups, keys, r, i - 1, j);
      DealtStep(groups, keys, r, i - 1, j);
    } else if r > 0 {
      CountDealt(groups, keys, r - 1, |groups|, j);
      RoundEnd(groups, r - 1);
    } else {
      NothingDealt(groups);
      NoneInStratum(keys[j]);
    }
  }

  lemma NoneInStratum(k: string)
    ensures InStratum([], k) == [] && Count([], k) == 0
  {
  }

  lemma {:induction false} OneEach<T>(groups: seq<seq<T>>, i: nat, n: nat)
    requires i <= |groups| && n <= |groups| && forall j :: 0 <= j < |groups| ==> groups[j] != []
    ensures GivenSum(groups, 0, i, n) == Min(i, n)
  {
    if n > 0 {
      OneEach(groups, i, n - 1);
    }
  }

  /** A draw at least as large as the number of groups has taken from every group. */
  lemma AllGiven<T>(groups: seq<seq<T>>, r: nat, i: nat, j: nat)
    requires i <= |groups| && j < |groups| && forall m :: 0 <= m < |groups| ==> groups[m] != []
    requires |Dealt(groups, r, i)| >= |groups|
    ensures Given(groups, r, i, j) >= 1
  {
    DealtSize(groups, r, i);
    if r == 0 {
      OneEach(groups, i, |groups|);
    }
    assert groups[j] != [];
  }

  lemma GroupsLabelled(reps: seq<Candidate>, digest: string -> string, seed: string)
    ensures Labelled(Groups(reps, digest, seed), OrderedStrata(reps, digest, seed))
    ensures forall j :: 0 <= j < |Groups(reps, digest, seed)| ==>
              |Groups(reps, digest, seed)[j]| == Count(reps, OrderedStrata(reps, digest, seed)[j]) > 0
  {
    var keys, groups := OrderedStrata(reps, digest, seed), Groups(reps, digest, seed);
    OrderedCover(reps, digest, seed);
    forall j | 0 <= j < |groups|
      ensures |groups[j]| == Count(reps, keys[j]) > 0
      ensures forall x: Candidate :: x in groups[j] ==> x.stratum == keys[j]
    {
      assert keys[j] in keys;
      SortKeepsDistinct(InStratum(reps, keys[j]), Ranking(digest, seed));
      forall x: Candidate | x in groups[j]
        ensures x.stratum == keys[j]
      {
        SameMembers(InStratum(reps, keys[j]), Ranking(digest, seed), x);
      }
    }
  }

  lemma {:induction false} TotalAtLeast<T>(groups: seq<seq<T>>)
    requires forall j :: 0 <= j < |groups| ==> groups[j] != []
    ensures Total(groups) >= |groups|
  {
    if groups != [] {
      var front := groups[..|groups| - 1];
      assert forall j :: 0 <= j < |front| ==> front[j] == groups[j];
      TotalAtLeast(front);
    }
  }

  /** A stage of the draw that covers every stratum. */
  ghost predicate Covers(reps: seq<Candidate>, keys: seq<string>, selected: seq<Candidate>) {
    forall j :: 0 <= j < |keys| ==> Count(selected, keys[j]) >= 1 && Count(reps, keys[j]) >= 1
  }

  lemma StageCovers(reps: seq<Candidate>, digest: string -> string, seed: string, r: nat, i: nat, size: nat)
    requires var groups := Groups(reps, digest, seed);
             i <= |groups| <= size && |Dealt(groups, r, i)| == Min(size, |reps|)
    ensures Covers(reps, OrderedStrata(reps, digest, seed), Dealt(Groups(reps, digest, seed), r, i))
  {
    hide Count, Dealt, OrderedStrata, GroupsOf;
    var keys, groups := OrderedStrata(reps, digest, seed), Groups(reps, digest, seed);
    GroupsLabelled(reps, digest, seed);
    GroupsPartition(reps, digest, seed);
    TotalAtLeast(groups);
    forall j | 0 <= j < |keys|
      ensures Count(Dealt(groups, r, i), keys[j]) >= 1
    {
      CountDealt(groups, keys, r, i, j);
      AllGiven(groups, r, i, j);
    }
  }

  method Describe(keys: seq<string>, groups: seq<seq<Candidate>>, taken: seq<nat>, reps: seq<Candidate>,
                  selected: seq<Candidate>)
    returns (strata: map<string, Stats>)
    requires |keys| == |groups| == |taken| && Covers(reps, keys, selected)
    requires forall j :: 0 <= j < |keys| ==> |groups[j]| == Count(reps, keys[j]) && taken[j] == Count(selected, keys[j])
    ensures forall k :: k in strata <==> k in keys
    ensures forall k :: k in keys ==>
              Count(selected, k) > 0 && Count(reps, k) > 0 && strata[k] == StatsOf(reps, selected, k)
  {
    hide Count, StatsOf;
    strata := map[];
    for j := 0 to |keys|
      invariant forall k :: k in strata <==> k in keys[..j]
      invariant forall m :: 0 <= m < j ==> keys[m] in strata && strata[keys[m]] == StatsOf(reps, selected, keys[m])
    {
      StatsAre(reps, selected, keys[j]);
      assert keys[..j + 1] == keys[..j] + [keys[j]];
      var population, n := |groups[j]|, taken[j];
      strata := strata[keys[j] := Stats(population, n, n as real / population as real, population as real / n as real)];
    }
    assert keys[..|keys|] == keys;
  }

  lemma StatsAre(reps: seq<Candidate>, selected: seq<Candidate>, k: string)
    requires Count(selected, k) > 0 && Count(reps, k) > 0
    ensures var population, n := Count(reps, k), Count(selected, k);
            StatsOf(reps, selected, k)
              == Stats(population, n, n as real / population as real, population as real / n as real)
  {
  }

  /** The probability is the share of the stratum that was drawn, and the weight undoes it. */
  predicate StatsMean(s: Stats, population: nat, selected: nat) {
    && s.population == population && s.selected == selected
    && s.probability * population as real == selected as real
    && s.weight * selected as real == population as real
  }

  lemma StatsFit(reps: seq<Candidate>, selected: seq<Candidate>, k: string)
    requires Count(selected, k) > 0 && Count(reps, k) > 0
    ensures StatsMean(StatsOf(reps, selected, k), Count(reps, k), Count(selected, k))
  {
    hide Count;
  }

  method RankStrata(keys: seq<string>, reps: seq<Candidate>, digest: string -> string, seed: string)
    returns (groups: seq<seq<Candidate>>)
    ensures groups == GroupsOf(keys, reps, digest, seed)
  {
    hide Sort, InStratum;
    var found, strata := StratifyRepresentatives(reps);
    groups := [];
    for j := 0 to |keys|
      invariant |groups| == j && forall m :: 0 <= m < j ==>
                  groups[m] == Sort(InStratum(reps, keys[m]), Ranking(digest, seed))
    {
      groups := groups + [Sort(Listed(strata, keys[j]), Ranking(digest, seed))];
    }
  }

  lemma Exists(candidates: seq<Candidate>)
    ensures candidates == [] <==> Strata(Representatives(candidates)) == []
  {
    var sorted := Sort(candidates, ByEvent());
    SortKeepsDistinct(candidates, ByEvent());
    var reps := Representatives(candidates);
    if candidates != [] {
      assert Seen(reps, sorted[0].dedup);
      assert reps[0].stratum in Strata(reps);
    } else {
      NoMembers(sorted);
    }
  }

  /** Main result. The whole procedure: when it refuses, what it draws, and the statistics of every
      stratum, none of which divides by zero. */
  method SelectSample(candidates: seq<Candidate>, size: int, seed: string, digest: string -> string)
    returns (result: Outcome)
    ensures result.ValueError? <==> size < 1 || 500 < size || seed == "" || candidates == []
                                    || size < |Strata(Representatives(candidates))|
    ensures result.Sampled? ==>
              var reps, keys := Representatives(candidates), OrderedStrata(Representatives(candidates), digest, seed);
              && result.selected == SampleOf(reps, size, digest, seed) && result.unique == |reps|
              && Covers(reps, keys, result.selected)
              && (forall k :: k in result.strata <==> k in keys)
              && (forall k :: k in keys ==> Count(result.selected, k) > 0 && Count(reps, k) > 0
                                            && result.strata[k] == StatsOf(reps, result.selected, k)
                                            && StatsMean(result.strata[k], Count(reps, k), Count(result.selected, k)))
  {
    hide Count, Dealt, GroupsOf, Deal, StatsOf, Strata, Representatives, FirstEach, StatsMean;
    Exists(candidates);
    if !(1 <= size <= 500) || seed == "" {
      return ValueError;
    }
    var reps := FindRepresentatives(candidates);
    var found := Strata(reps);
    if found == [] || size < |found| {
      return ValueError;
    }
    var keys := OrderedStrata(reps, digest, seed);
    OrderedCover(reps, digest, seed);
    var groups := RankStrata(keys, reps, digest, seed);
    GroupsLabelled(reps, digest, seed);
    GroupsPartition(reps, digest, seed);
    var selected, taken, r, i := Draw(groups, size);
    DealtPrefix(groups, r, i);
    StageCovers(reps, digest, seed, r, i, size);
    forall j | 0 <= j < |keys|
      ensures taken[j] == Count(selected, keys[j])
    {
      CountDealt(groups, keys, r, i, j);
    }
    var strata := Describe(keys, groups, taken, reps, selected);
    forall k | k in keys
      ensures StatsMean(strata[k], Count(reps, k), Count(selected, k))
    {
      StatsFit(reps, selected, k);
    }
    result := Sampled(selected, |reps|, strata);
  }

  // ---------------------------------------------------------------- properties of the sample

  /** The representatives are candidates, one for each dedup hash, with the least event id. */
  lemma RepresentativesLeast(candidates: seq<Candidate>, c: Candidate)
    requires c in candidates
    ensures exists x :: x in Representatives(candidates) && x.dedup == c.dedup && StringLe(x.eventId, c.eventId)
  {
    var sorted := Sort(candidates, ByEvent());
    EventOrder();
    SortAscends(candidates, ByEvent());
    SameMembers(candidates, ByEvent(), c);
    var k :| 0 <= k < |sorted| && sorted[k] == c;
    var x := FirstIsLeast(sorted, k);
  }

  lemma EventOrder()
    ensures Preorder(ByEvent())
  {
    forall a: Candidate, b: Candidate
      ensures ByEvent()(a, b) || ByEvent()(b, a)
    {
      StringTotal(a.eventId, b.eventId);
    }
    forall a: Candidate, b: Candidate, c: Candidate | ByEvent()(a, b) && ByEvent()(b, c)
      ensures ByEvent()(a, c)
    {
      StringChains(a.eventId, b.eventId, c.eventId);
    }
  }

  lemma {:induction false} FirstIsLeast(sorted: seq<Candidate>, k: nat) returns (x: Candidate)
    requires Ascending(sorted, ByEvent()) && k < |sorted|
    ensures x in FirstEach(sorted) && x.dedup == sorted[k].dedup && StringLe(x.eventId, sorted[k].eventId)
    decreases |sorted|
  {
    var front, z := sorted[..|sorted| - 1], sorted[|sorted| - 1];
    if k < |front| {
      x := FirstIsLeast(front, k);
    } else if Seen(FirstEach(front), z.dedup) {
      var i :| 0 <= i < |FirstEach(front)| && FirstEach(front)[i].dedup == z.dedup;
      x := FirstEach(front)[i];
      assert x in front;
      var j :| 0 <= j < |front| && front[j] == x;
      assert ByEvent()(sorted[j], sorted[k]);
    } else {
      x := z;
      StringTotal(z.eventId, z.eventId);
    }
  }

  /** Main result. The sample holds exactly min(size, unique) distinct representatives. */
  lemma SampleDistinct(candidates: seq<Candidate>, size: nat, digest: string -> string, seed: string)
    ensures var reps := Representatives(candidates);
            && |SampleOf(reps, size, digest, seed)| == Min(size, |reps|)
            && Distinct(SampleOf(reps, size, digest, seed))
            && forall x :: x in SampleOf(reps, size, digest, seed) ==> x in reps
  {
    hide Groups, FirstEach, Deal, Bag;
    SampleInReps(Representatives(candidates), size, digest, seed);
    var reps := Representatives(candidates);
    var deal := Deal(Groups(reps, digest, seed));
    GroupsPartition(reps, digest, seed);
    DealIsAll(Groups(reps, digest, seed));
    DealtPrefix(Groups(reps, digest, seed), 0, 0);
    DistinctCounts(reps);
    DistinctCounts(deal);
  }

  /** Main result. The sample of size k is a prefix of the sample of size k + 1. */
  lemma SamplePrefix(reps: seq<Candidate>, k: nat, digest: string -> string, seed: string)
    ensures SampleOf(reps, k, digest, seed) <= SampleOf(reps, k + 1, digest, seed)
  {
    hide Groups, Deal;
    var deal, a, b := Deal(Groups(reps, digest, seed)), Min(k, |reps|), Min(k + 1, |reps|);
    DealtPrefix(Groups(reps, digest, seed), 0, 0);
    GroupsPartition(reps, digest, seed);
    assert deal[..a] == deal[..b][..a];
  }

  lemma NextStage<T>(groups: seq<seq<T>>, r: nat, i: nat) returns (q: nat, k: nat)
    requires i <= |groups| && |Dealt(groups, r, i)| < Total(groups)
    ensures k <= |groups| && |Dealt(groups, q, k)| == |Dealt(groups, r, i)| + 1
  {
    q, k := r, i;
    DealtAll(groups, r, i);
    while |Dealt(groups, q, k)| == |Dealt(groups, r, i)|
      invariant k <= |groups|
      invariant |Dealt(groups, q, k)| == |Dealt(groups, r, i)| || |Dealt(groups, q, k)| == |Dealt(groups, r, i)| + 1
      decreases if |Dealt(groups, q, k)| == |Dealt(groups, r, i)| then 1 else 0, Longest(groups) - q, |groups| - k
    {
      DealtAll(groups, q, k);
      if k == |groups| {
        q, k := q + 1, 0;
      } else {
        k := k + 1;
      }
    }
  }

  lemma {:induction false} Stage<T>(groups: seq<seq<T>>, n: nat) returns (r: nat, i: nat)
    requires n <= Total(groups)
    ensures i <= |groups| && |Dealt(groups, r, i)| == n
  {
    if n == 0 {
      r, i := 0, 0;
    } else {
      r, i := Stage(groups, n - 1);
      r, i := NextStage(groups, r, i);
    }
  }

  /** Every sample is a stage of the draw. */
  lemma SampleStage(reps: seq<Candidate>, size: nat, digest: string -> string, seed: string) returns (r: nat, i: nat)
    ensures var groups := Groups(reps, digest, seed);
            i <= |groups| && SampleOf(reps, size, digest, seed) == Dealt(groups, r, i)
  {
    hide Groups, Deal, Dealt, Total;
    var groups := Groups(reps, digest, seed);
    GroupsPartition(reps, digest, seed);
    r, i := Stage(groups, Min(size, |reps|));
    DealtPrefix(groups, r, i);
  }

  lemma GivenBalanced<T>(groups: seq<seq<T>>, r: nat, i: nat, m: nat, n: nat)
    requires m < |groups| && n < |groups| && Given(groups, r, i, m) < |groups[m]|
    ensures Given(groups, r, i, n) <= Given(groups, r, i, m) + 1
  {
  }

  lemma Position(reps: seq<Candidate>, digest: string -> string, seed: string, k: string) returns (m: nat)
    requires k in Strata(reps)
    ensures m < |OrderedStrata(reps, digest, seed)| && OrderedStrata(reps, digest, seed)[m] == k
  {
    hide Strata, Sort;
    SameMembers(Strata(reps), StrataRanking(digest, seed), k);
    m :| 0 <= m < |OrderedStrata(reps, digest, seed)| && OrderedStrata(reps, digest, seed)[m] == k;
  }

  /** Main result. A stratum that is not exhausted is within one of every other. */
  lemma SampleBalanced(reps: seq<Candidate>, size: nat, digest: string -> string, seed: string, a: string, b: string)
    requires a in Strata(reps) && b in Strata(reps)
    ensures var s := SampleOf(reps, size, digest, seed);
            Count(s, a) < Count(reps, a) ==> Count(s, b) <= Count(s, a) + 1
  {
    hide Dealt, Count, SampleOf, GroupsOf, Strata, OrderedStrata, Given, Labelled;
    var keys, groups := OrderedStrata(reps, digest, seed), Groups(reps, digest, seed);
    var m := Position(reps, digest, seed, a);
    var n := Position(reps, digest, seed, b);
    var r, i := SampleStage(reps, size, digest, seed);
    GroupsLabelled(reps, digest, seed);
    CountDealt(groups, keys, r, i, m);
    CountDealt(groups, keys, r, i, n);
    if Count(SampleOf(reps, size, digest, seed), a) < Count(reps, a) {
      GivenBalanced(groups, r, i, m, n);
    }
  }

  // ---------------------------------------------------------------- weights

  function WeightSum(xs: seq<Candidate>, w: string -> real): real {
    if xs == [] then 0.0 else WeightSum(xs[..|xs| - 1], w) + w(xs[|xs| - 1].stratum)
  }

  function SumOver(ks: seq<string>, f: string -> real): real {
    if ks == [] then 0.0 else SumOver(ks[..|ks| - 1], f) + f(ks[|ks| - 1])
  }

  lemma OneMore(n: nat, w: real)
    ensures (n + 1) as real * w == n as real * w + w
  {
  }

  lemma CountLast(xs: seq<Candidate>, k: string)
    requires xs != []
    ensures Count(xs, k) == Count(xs[..|xs| - 1], k) + if xs[|xs| - 1].stratum == k then 1 else 0
  {
  }

  lemma {:induction false} WeightStep(xs: seq<Candidate>, ks: seq<string>, k: string, w: string -> real)
    requires k !in ks
    ensures WeightSum(InStrata(xs, ks + [k]), w) == WeightSum(InStrata(xs, ks), w) + Count(xs, k) as real * w(k)
  {
    hide Count, WeightSum;
    if xs == [] {
      NoneInStratum(k);
    } else {
      var front, z := xs[..|xs| - 1], xs[|xs| - 1];
      WeightStep(front, ks, k, w);
      WeightLast(InStrata(front, ks), z, w);
      WeightLast(InStrata(front, ks + [k]), z, w);
      CountLast(xs, k);
      OneMore(Count(front, k), w(k));
      assert z.stratum in ks + [k] <==> z.stratum in ks || z.stratum == k;
      assert InStrata(xs, ks) == if z.stratum in ks then InStrata(front, ks) + [z] else InStrata(front, ks);
      assert InStrata(xs, ks + [k]) == if z.stratum in ks + [k] then InStrata(front, ks + [k]) + [z]
             else InStrata(front, ks + [k]);
    }
  }

  lemma WeightLast(xs: seq<Candidate>, z: Candidate, w: string -> real)
    ensures WeightSum(xs + [z], w) == WeightSum(xs, w) + w(z.stratum)
  {
    assert (xs + [z])[..|xs|] == xs;
  }

  function Share(xs: seq<Candidate>, w: string -> real): string -> real {
    k => Count(xs, k) as real * w(k)
  }

  lemma ShareAt(xs: seq<Candidate>, w: string -> real, k: string)
    ensures Share(xs, w)(k) == Count(xs, k) as real * w(k)
  {
  }

  /** Summing over documents is summing over strata. */
  lemma {:induction false} WeightByStratum(xs: seq<Candidate>, ks: seq<string>, w: string -> real)
    requires Distinct(ks)
    ensures WeightSum(InStrata(xs, ks), w) == SumOver(ks, Share(xs, w))
  {
    hide Count, InStrata, Share;
    if ks == [] {
      NoStrata(xs);
    } else {
      var front, k := ks[..|ks| - 1], ks[|ks| - 1];
      assert ks == front + [k];
      WeightByStratum(xs, front, w);
      WeightStep(xs, front, k, w);
      ShareAt(xs, w, k);
    }
  }

  lemma {:induction false} SameShares(ks: seq<string>, f: string -> real, g: string -> real)
    requires forall j :: 0 <= j < |ks| ==> f(ks[j]) == g(ks[j])
    ensures SumOver(ks, f) == SumOver(ks, g)
  {
    if ks != [] {
      SameShares(ks[..|ks| - 1], f, g);
    }
  }

  lemma {:induction false} UnitWeights(xs: seq<Candidate>)
    ensures WeightSum(xs, One()) == |xs| as real
  {
    if xs != [] {
      UnitWeights(xs[..|xs| - 1]);
    }
  }

  function One(): string -> real {
    _ => 1.0
  }

  /** The weight of a stratum in a sample; zero if the sample has none of it. */
  function Weight(reps: seq<Candidate>, s: seq<Candidate>): string -> real {
    k => if Count(s, k) == 0 then 0.0 else Count(reps, k) as real / Count(s, k) as real
  }

  lemma Cancel(n: real, m: real)
    requires n > 0.0
    ensures n * (m / n) == m * 1.0
  {
  }

  lemma WeightsCancel(reps: seq<Candidate>, s: seq<Candidate>, k: string)
    requires Count(s, k) > 0
    ensures Share(s, Weight(reps, s))(k) == Share(reps, One())(k)
  {
    hide Count;
    Cancel(Count(s, k) as real, Count(reps, k) as real);
  }

  /** Main result. Over a sample that covers every stratum, the weights add up to the number of
      unique documents. */
  lemma WeightsAddUp(reps: seq<Candidate>, size: nat, digest: string -> string, seed: string)
    requires size >= |Strata(reps)|
    ensures var s := SampleOf(reps, size, digest, seed); WeightSum(s, Weight(reps, s)) == |reps| as real
  {
    hide Count, Groups, Strata, Share, Weight, One, InStrata, WeightSum;
    var keys, s := OrderedStrata(reps, digest, seed), SampleOf(reps, size, digest, seed);
    OrderedCover(reps, digest, seed);
    var r, i := SampleStage(reps, size, digest, seed);
    SampleCovers(reps, size, digest, seed, r, i);
    SampleInReps(reps, size, digest, seed);
    AllStrata(reps, keys);
    AllStrata(s, keys);
    WeightByStratum(s, keys, Weight(reps, s));
    WeightByStratum(reps, keys, One());
    forall j | 0 <= j < |keys|
      ensures Share(s, Weight(reps, s))(keys[j]) == Share(reps, One())(keys[j])
    {
      WeightsCancel(reps, s, keys[j]);
    }
    SameShares(keys, Share(s, Weight(reps, s)), Share(reps, One()));
    UnitWeights(reps);
  }

  lemma SampleCovers(reps: seq<Candidate>, size: nat, digest: string -> string, seed: string, r: nat, i: nat)
    requires size >= |Strata(reps)| && i <= |Groups(reps, digest, seed)|
    requires SampleOf(reps, size, digest, seed) == Dealt(Groups(reps, digest, seed), r, i)
    ensures Covers(reps, OrderedStrata(reps, digest, seed), SampleOf(reps, size, digest, seed))
  {
    hide Dealt, SampleOf, Strata;
    OrderedCover(reps, digest, seed);
    StageCovers(reps, digest, seed, r, i, size);
  }

  lemma SampleInReps(reps: seq<Candidate>, size: nat, digest: string -> string, seed: string)
    ensures forall x :: x in SampleOf(reps, size, digest, seed) ==> x in reps
  {
    hide Groups, Deal, Bag;
    var deal := Deal(Groups(reps, digest, seed));
    GroupsPartition(reps, digest, seed);
    DealIsAll(Groups(reps, digest, seed));
    forall x | x in SampleOf(reps, size, digest, seed)
      ensures x in reps
    {
      assert x in deal && x in multiset(deal);
      assert x in multiset(reps);
    }
  }

  // ---------------------------------------------------------------- the order of the draw

  /** A turn: the member number `round` of group number `group`. */
  datatype Turn = Turn(round: nat, group: nat)

  predicate Sooner(a: Turn, b: Turn) {
    a.round < b.round || (a.round == b.round && a.group < b.group)
  }

  predicate Occurs<T>(groups: seq<seq<T>>, t: Turn) {
    t.group < |groups| && t.round < |groups[t.group]|
  }

  function RoundTurns<T>(groups: seq<seq<T>>, r: nat, i: nat): seq<Turn>
    requires i <= |groups|
  {
    if i == 0 then [] else RoundTurns(groups, r, i - 1) + if r < |groups[i - 1]| then [Turn(r, i - 1)] else []
  }

  function RoundsTurns<T>(groups: seq<seq<T>>, r: nat): seq<Turn> {
    if r == 0 then [] else RoundsTurns(groups, r - 1) + RoundTurns(groups, r - 1, |groups|)
  }

  /** The items are the members whose turns they are. */
  ghost predicate Plays<T>(groups: seq<seq<T>>, turns: seq<Turn>, items: seq<T>) {
    && |turns| == |items|
    && forall p :: 0 <= p < |turns| ==> Occurs(groups, turns[p]) && items[p] == groups[turns[p].group][turns[p].round]
  }

  ghost predicate InOrder(turns: seq<Turn>) {
    forall p, q :: 0 <= p < q < |turns| ==> Sooner(turns[p], turns[q])
  }

  lemma {:induction false} RoundInTurns<T>(groups: seq<seq<T>>, r: nat, i: nat)
    requires i <= |groups|
    ensures var turns := RoundTurns(groups, r, i);
            && Plays(groups, turns, Round(groups, r, i)) && InOrder(turns)
            && forall t :: t in turns <==> Occurs(groups, t) && t.round == r && t.group < i
  {
    if i > 0 {
      RoundInTurns(groups, r, i - 1);
    }
  }

  lemma PlaysBoth<T>(groups: seq<seq<T>>, a: seq<Turn>, x: seq<T>, b: seq<Turn>, y: seq<T>)
    requires Plays(groups, a, x) && Plays(groups, b, y) && InOrder(a) && InOrder(b)
    requires forall t, u :: t in a && u in b ==> Sooner(t, u)
    ensures Plays(groups, a + b, x + y) && InOrder(a + b)
  {
    forall p, q | 0 <= p < q < |a + b|
      ensures Sooner((a + b)[p], (a + b)[q])
    {
      assert p < |a| ==> (a + b)[p] in a;
      assert q >= |a| ==> (a + b)[q] in b;
    }
  }

  lemma {:induction false} RoundsInTurns<T>(groups: seq<seq<T>>, r: nat)
    ensures var turns := RoundsTurns(groups, r);
            && Plays(groups, turns, Rounds(groups, r)) && InOrder(turns)
            && forall t :: t in turns <==> Occurs(groups, t) && t.round < r
  {
    hide Plays, InOrder, Round, RoundTurns;
    if r == 0 {
      NoTurns(groups);
    } else {
      RoundsInTurns(groups, r - 1);
      RoundInTurns(groups, r - 1, |groups|);
      PlaysBoth(groups, RoundsTurns(groups, r - 1), Rounds(groups, r - 1), RoundTurns(groups, r - 1, |groups|),
                Round(groups, r - 1, |groups|));
    }
  }

  lemma NoTurns<T>(groups: seq<seq<T>>)
    ensures Plays(groups, [], []) && InOrder([])
  {
  }

  /** Main result. Every stage of the draw is made of the first turns: a member with a smaller number goes
      first, and of equal numbers the one of the earlier group. */
  lemma DealtInTurns<T>(groups: seq<seq<T>>, r: nat, i: nat) returns (turns: seq<Turn>)
    requires i <= |groups|
    ensures Plays(groups, turns, Dealt(groups, r, i)) && InOrder(turns)
    ensures forall t :: t in turns <==> Occurs(groups, t) && Sooner(t, Turn(r, i))
  {
    hide Plays, InOrder, Round, RoundTurns, Rounds, RoundsTurns;
    RoundsInTurns(groups, r);
    RoundInTurns(groups, r, i);
    turns := RoundsTurns(groups, r) + RoundTurns(groups, r, i);
    PlaysBoth(groups, RoundsTurns(groups, r), Rounds(groups, r), RoundTurns(groups, r, i), Round(groups, r, i));
  }

  /** What ranks a document within its stratum. */
  function DocumentHash(x: Candidate, digest: string -> string, seed: string): string {
    digest(seed + ":doc-" + x.textSha)
  }

  lemma RankingReads(digest: string -> string, seed: string, x: Candidate, y: Candidate)
    ensures Ranking(digest, seed)(x, y) <==>
              if DocumentHash(x, digest, seed) == DocumentHash(y, digest, seed) then StringLe(x.eventId, y.eventId)
              else StringLe(DocumentHash(x, digest, seed), DocumentHash(y, digest, seed))
  {
    assert seed + ":" + "doc-" + x.textSha == seed + ":doc-" + x.textSha;
    assert seed + ":" + "doc-" + y.textSha == seed + ":doc-" + y.textSha;
  }

  lemma HashThenName(a: string, b: string, c: string, d: string, e: string, f: string)
    ensures (if a == c then StringLe(b, d) else StringLe(a, c)) || (if c == a then StringLe(d, b) else StringLe(c, a))
    ensures ((if a == c then StringLe(b, d) else StringLe(a, c)) &&
             (if c == e then StringLe(d, f) else StringLe(c, e))) ==>
              if a == e then StringLe(b, f) else StringLe(a, e)
  {
    hide StringLe;
    StringTotal(a, c);
    StringTotal(b, d);
    if (if a == c then StringLe(b, d) else StringLe(a, c)) && (if c == e then StringLe(d, f) else StringLe(c, e)) {
      if a == c == e {
        StringChains(b, d, f);
      } else if a != c && c != e {
        StringChains(a, c, e);
        if a == e {
          StringAntisymmetric(a, c);
        }
      }
    }
  }

  lemma RankingOrders(digest: string -> string, seed: string)
    ensures Preorder(Ranking(digest, seed)) && Preorder(StrataRanking(digest, seed))
  {
    hide StringLe, Ranking, DocumentHash;
    var le, strata := Ranking(digest, seed), StrataRanking(digest, seed);
    forall x, y, z
      ensures (le(x, y) || le(y, x)) && (le(x, y) && le(y, z) ==> le(x, z))
    {
      RankingReads(digest, seed, x, y);
      RankingReads(digest, seed, y, x);
      RankingReads(digest, seed, y, z);
      RankingReads(digest, seed, x, z);
      HashThenName(DocumentHash(x, digest, seed), x.eventId, DocumentHash(y, digest, seed), y.eventId,
                   DocumentHash(z, digest, seed), z.eventId);
    }
    forall x, y, z
      ensures (strata(x, y) || strata(y, x)) && (strata(x, y) && strata(y, z) ==> strata(x, z))
    {
      HashThenName(digest(seed + x), x, digest(seed + y), y, digest(seed + z), z);
    }
  }

  /** Strata stand in the order of the hash of seed and key, then of the key. */
  ghost predicate StrataInOrder(keys: seq<string>, digest: string -> string, seed: string) {
    forall i, j :: 0 <= i < j < |keys| ==>
      if digest(seed + keys[i]) == digest(seed + keys[j]) then StringLe(keys[i], keys[j])
      else StringLe(digest(seed + keys[i]), digest(seed + keys[j]))
  }

  /** The documents of a stratum stand in the order of their hash, then of their event. */
  ghost predicate DocumentsInOrder(group: seq<Candidate>, digest: string -> string, seed: string) {
    forall i, j :: 0 <= i < j < |group| ==>
      var a, b := DocumentHash(group[i], digest, seed), DocumentHash(group[j], digest, seed);
      if a == b then StringLe(group[i].eventId, group[j].eventId) else StringLe(a, b)
  }

  lemma GroupsInOrder(reps: seq<Candidate>, digest: string -> string, seed: string)
    ensures StrataInOrder(OrderedStrata(reps, digest, seed), digest, seed)
    ensures forall k :: 0 <= k < |Groups(reps, digest, seed)| ==>
              DocumentsInOrder(Groups(reps, digest, seed)[k], digest, seed)
  {
    hide StringLe, Ranking, DocumentHash, Sort, Strata, InStratum;
    RankingOrders(digest, seed);
    SortAscends(Strata(reps), StrataRanking(digest, seed));
    var groups, keys := Groups(reps, digest, seed), OrderedStrata(reps, digest, seed);
    forall k | 0 <= k < |groups|
      ensures DocumentsInOrder(groups[k], digest, seed)
    {
      SortAscends(InStratum(reps, keys[k]), Ranking(digest, seed));
      var group := groups[k];
      forall i, j | 0 <= i < j < |group|
        ensures var a, b := DocumentHash(group[i], digest, seed), DocumentHash(group[j], digest, seed);
                if a == b then StringLe(group[i].eventId, group[j].eventId) else StringLe(a, b)
      {
        RankingReads(digest, seed, group[i], group[j]);
      }
    }
  }

  /** Main result. The sample takes the strata in turn in the order of their seeded hash, and each stratum's
      documents in the order of theirs: what is drawn is exactly the first turns. */
  lemma SampleInTurns(reps: seq<Candidate>, size: nat, digest: string -> string, seed: string)
    returns (turns: seq<Turn>)
    ensures var groups, keys := Groups(reps, digest, seed), OrderedStrata(reps, digest, seed);
            && |groups| == |keys| && StrataInOrder(keys, digest, seed)
            && (forall k :: 0 <= k < |groups| ==> DocumentsInOrder(groups[k], digest, seed))
            && (forall k, x :: 0 <= k < |groups| ==>
                  (x in groups[k] <==> x in reps && x.stratum == keys[k]))
            && Plays(groups, turns, SampleOf(reps, size, digest, seed)) && InOrder(turns)
            && forall t, u :: t in turns && Occurs(groups, u) && u !in turns ==> Sooner(t, u)
  {
    hide Groups, Plays, InOrder, Dealt, SampleOf, StrataInOrder, DocumentsInOrder;
    var r, i := SampleStage(reps, size, digest, seed);
    turns := DealtInTurns(Groups(reps, digest, seed), r, i);
    GroupsInOrder(reps, digest, seed);
    GroupMembers(reps, digest, seed);
  }

  lemma GroupMembers(reps: seq<Candidate>, digest: string -> string, seed: string)
    ensures var groups, keys := Groups(reps, digest, seed), OrderedStrata(reps, digest, seed);
            |groups| == |keys| && forall k, x :: 0 <= k < |groups| ==>
              (x in groups[k] <==> x in reps && x.stratum == keys[k])
  {
    hide Sort, OrderedStrata, Ranking;
    var groups, keys := Groups(reps, digest, seed), OrderedStrata(reps, digest, seed);
    forall k, x | 0 <= k < |groups|
      ensures x in groups[k] <==> x in reps && x.stratum == keys[k]
    {
      SameMembers(InStratum(reps, keys[k]), Ranking(digest, seed), x);
    }
  }
}
