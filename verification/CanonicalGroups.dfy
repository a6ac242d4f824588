/** The groups the second clean derivative allocates: one sentence for every unambiguous, valid token sequence. */
module CanonicalGroups {
  import opened Targets
  import opened Sequences
  import opened Groups
  import opened Remediation
  import Allocation
  import AllocateGroups
  import Bio

  /** The key (split name, index), the name compared as a string. */
  predicate Earlier(x: Sentence, y: Sentence) {
    NameRank(x.split) < NameRank(y.split) || (x.split == y.split && x.index < y.index)
  }

  /** `min(occurrences, key=...)`: the first least occurrence. */
  function Least(occ: seq<Sentence>): (x: Sentence)
    requires occ != []
    ensures x in occ && forall y :: y in occ ==> !Earlier(y, x)
  {
    var z := occ[|occ| - 1];
    if |occ| == 1 then assert z in occ; z
    else
      var x := Least(occ[..|occ| - 1]);
      assert occ == occ[..|occ| - 1] + [z];
      if Earlier(z, x) then z else x
  }

  /** What a group contributes. */
  function Canonical(occ: seq<Sentence>): seq<Sentence>
    requires occ != []
  {
    if Ambiguous(occ) || Invalid(occ[0].labels) then [] else [Least(occ)]
  }

  function CanonicalFrom(all: seq<Sentence>, ks: seq<Tokens>): seq<Sentence>
    requires AllOccur(all, ks)
  {
    if ks == [] then [] else CanonicalFrom(all, ks[..|ks| - 1]) + Canonical(Same(all, ks[|ks| - 1]))
  }

  datatype Quarantine = Quarantine(conflicting: nat, invalid: nat, duplicates: nat)

  function CountsOf(all: seq<Sentence>, ks: seq<Tokens>): Quarantine
    requires AllOccur(all, ks)
  {
    if ks == [] then Quarantine(0, 0, 0)
    else
      var c, occ := CountsOf(all, ks[..|ks| - 1]), Same(all, ks[|ks| - 1]);
      if Ambiguous(occ) then c.(conflicting := c.conflicting + |occ|)
      else if Invalid(occ[0].labels) then c.(invalid := c.invalid + |occ|)
      else c.(duplicates := c.duplicates + |occ| - 1)
  }

  /** Hashes are compared as strings. */
  function ByHash(hash: Tokens -> string): (Sentence, Sentence) -> bool {
    (x: Sentence, y: Sentence) => StringLe(hash(x.tokens), hash(y.tokens))
  }

  function CanonicalOf(p: Parsed, hash: Tokens -> string): seq<Sentence> {
    KeysAllOccur(p.All());
    Sort(CanonicalFrom(p.All(), Keys(p.All(), TokensOf)), ByHash(hash))
  }

  method FindCanonicalGroups(p: Parsed, hash: Tokens -> string) returns (retained: seq<Sentence>, counts: Quarantine)
    ensures retained == CanonicalOf(p, hash)
    ensures |p.All()| == |retained| + counts.conflicting + counts.invalid + counts.duplicates
    ensures forall i, j :: 0 <= i < j < |retained| ==> StringLe(hash(retained[i].tokens), hash(retained[j].tokens))
    ensures counts == QuarantineOf(p)
  {
    hide Keys, Occurrences, Canonical, Ambiguous, Invalid, Least, Sort, Sizes, Distinct, Same, StringLe, ByHash,
         QuarantineOf;
    var all := p.All();
    var keys, groups := GroupBy(all, TokensOf);
    KeysAllOccur(all);
    retained, counts := [], Quarantine(0, 0, 0);
    assert keys[..0] == [];
    for n := 0 to |keys|
      invariant retained == CanonicalFrom(all, keys[..n]) && counts == CountsOf(all, keys[..n])
    {
      assert keys[..n + 1][..n] == keys[..n] && keys[..n + 1][n] == keys[n];
      GroupIsSame(all, groups, keys[n]);
      var occ := Listed(groups, keys[n]);
      CanonicalMeaning(occ);
      var defects := Bio.InvalidBioTransitions(occ[0].labels);
      InvalidIsDefects(occ[0].labels);
      if Ambiguous(occ) {
        counts := counts.(conflicting := counts.conflicting + |occ|);
      } else if defects != [] {
        counts := counts.(invalid := counts.invalid + |occ|);
      } else {
        retained := retained + [Least(occ)];
        counts := counts.(duplicates := counts.duplicates + |occ| - 1);
      }
    }
    assert keys[..|keys|] == keys;
    QuarantineIs(p);
    Accounted(all, keys);
    SizesAddUp(all, TokensOf);
    SortKeepsDistinct(retained, ByHash(hash));
    SortedByHash(retained, hash);
    retained := Sort(retained, ByHash(hash));
  }

  lemma SortedByHash(xs: seq<Sentence>, hash: Tokens -> string)
    ensures var r := Sort(xs, ByHash(hash));
            forall i, j :: 0 <= i < j < |r| ==> StringLe(hash(r[i].tokens), hash(r[j].tokens))
  {
    hide StringLe, Sort;
    var le := ByHash(hash);
    forall x, y
      ensures le(x, y) || le(y, x)
    {
      StringTotal(hash(x.tokens), hash(y.tokens));
    }
    forall x, y, z | le(x, y) && le(y, z)
      ensures le(x, z)
    {
      StringChains(hash(x.tokens), hash(y.tokens), hash(z.tokens));
    }
    SortAscends(xs, le);
  }

  /** The counters of the quarantine. */
  function QuarantineOf(p: Parsed): Quarantine {
    KeysAllOccur(p.All());
    CountsOf(p.All(), Keys(p.All(), TokensOf))
  }

  lemma QuarantineIs(p: Parsed)
    ensures AllOccur(p.All(), Keys(p.All(), TokensOf))
    ensures QuarantineOf(p) == CountsOf(p.All(), Keys(p.All(), TokensOf))
  {
    KeysAllOccur(p.All());
  }

  /** The fates of the sentences of some groups, counted: a group loses all its occurrences to a conflict or to a
      defect, or all but one as duplicates. */
  lemma {:induction false} CountsAreFates(all: seq<Sentence>, ks: seq<Tokens>)
    requires AllOccur(all, ks) && Distinct(ks) && Within(all, all)
    ensures CountsOf(all, ks).conflicting == Count(all, all, ks, Conflicting)
    ensures CountsOf(all, ks).invalid == Count(all, all, ks, InvalidBio)
  {
    hide Same, Count, CountIn, Ambiguous, Invalid;
    if ks == [] {
      CountNothing(all, all, Conflicting);
      CountNothing(all, all, InvalidBio);
    } else {
      var front, k := ks[..|ks| - 1], ks[|ks| - 1];
      assert ks == front + [k] && k !in front;
      CountsAreFates(all, front);
      var occ := Same(all, k);
      CountStep(all, all, front, k, Conflicting);
      CountStep(all, all, front, k, InvalidBio);
      if Ambiguous(occ) || Invalid(occ[0].labels) {
        UniformFate(occ, occ, Conflicting);
        UniformFate(occ, occ, InvalidBio);
      } else {
        CleanHasNoRejects(occ, occ, Conflicting);
        CleanHasNoRejects(occ, occ, InvalidBio);
      }
    }
  }

  /** How many sentences satisfy p. */
  function HowMany(xs: seq<Sentence>, p: Sentence -> bool): nat {
    if xs == [] then 0 else HowMany(xs[..|xs| - 1], p) + if p(xs[|xs| - 1]) then 1 else 0
  }

  lemma {:induction false} CountIsHowMany(xs: seq<Sentence>, all: seq<Sentence>, ks: seq<Tokens>, f: Fate,
                                          p: Sentence -> bool)
    requires Within(xs, all) && forall x :: x in xs ==> x.tokens in ks && (FateOf(all, x) == f <==> p(x))
    ensures Count(xs, all, ks, f) == HowMany(xs, p)
  {
    hide FateOf;
    if xs != [] {
      var front, z := xs[..|xs| - 1], xs[|xs| - 1];
      assert xs == front + [z] && z in xs;
      CountIsHowMany(front, all, ks, f, p);
    }
  }

  /** Main result. Quarantined for a conflict are exactly the sentences that another one with their tokens
      contradicts, for a defect exactly the others whose labels have one. */
  lemma QuarantineMeans(p: Parsed)
    requires WellFormed(p)
    ensures QuarantineOf(p).conflicting == HowMany(p.All(), x => Contradicted(p.All(), x))
    ensures QuarantineOf(p).invalid
            == HowMany(p.All(), x => !Contradicted(p.All(), x) && Bio.Defects(x.labels, |x.labels|) != [])
  {
    hide WellFormed, FateOf, Contradicted, Outranked, Preceded, Count, CountsOf, HowMany, Distinct;
    var all, ks := p.All(), Keys(p.All(), TokensOf);
    KeysAllOccur(all);
    CountsAreFates(all, ks);
    forall x | x in all
      ensures x.tokens in ks
      ensures FateOf(all, x) == Conflicting <==> Contradicted(all, x)
      ensures FateOf(all, x) == InvalidBio <==> !Contradicted(all, x) && Bio.Defects(x.labels, |x.labels|) != []
    {
      KeyListed(all, x);
      FateMeans(p, x);
    }
    CountIsHowMany(all, all, ks, Conflicting, x => Contradicted(all, x));
    CountIsHowMany(all, all, ks, InvalidBio,
                   x => !Contradicted(all, x) && Bio.Defects(x.labels, |x.labels|) != []);
  }

  lemma CanonicalMeaning(occ: seq<Sentence>)
    requires occ != []
    ensures Canonical(occ) == if Ambiguous(occ) || Invalid(occ[0].labels) then [] else [Least(occ)]
  {
  }

  // ---------------------------------------------------------------- conservation

  lemma {:induction false} Accounted(all: seq<Sentence>, ks: seq<Tokens>)
    requires AllOccur(all, ks)
    ensures var c := CountsOf(all, ks);
            Sizes(all, TokensOf, ks) == |CanonicalFrom(all, ks)| + c.conflicting + c.invalid + c.duplicates
  {
    hide Occurrences, Ambiguous, Invalid;
    if ks != [] {
      Accounted(all, ks[..|ks| - 1]);
    }
  }

  // ---------------------------------------------------------------- what the groups are

  lemma {:induction false} CanonicalMember(all: seq<Sentence>, ks: seq<Tokens>, x: Sentence)
    requires AllOccur(all, ks) && x in CanonicalFrom(all, ks)
    ensures x in all && x.tokens in ks && !Ambiguous(Same(all, x.tokens)) && !Invalid(x.labels)
  {
    hide Invalid;
    var front, k := ks[..|ks| - 1], ks[|ks| - 1];
    var occ := Same(all, k);
    if x in Canonical(occ) {
      var i :| 0 <= i < |occ| && occ[i] == x;
      assert occ[0] in occ;
    } else {
      CanonicalMember(all, front, x);
    }
  }

  predicate TokensDistinct(xs: seq<Sentence>) {
    forall i, j :: 0 <= i < j < |xs| ==> xs[i].tokens != xs[j].tokens
  }

  lemma {:induction false} CanonicalDistinct(all: seq<Sentence>, ks: seq<Tokens>)
    requires AllOccur(all, ks) && Distinct(ks)
    ensures TokensDistinct(CanonicalFrom(all, ks))
  {
    hide Invalid, Ambiguous;
    if ks != [] {
      var front, k := ks[..|ks| - 1], ks[|ks| - 1];
      CanonicalDistinct(all, front);
      var list, occ := CanonicalFrom(all, front), Same(all, k);
      assert Least(occ) in occ;
      forall i | 0 <= i < |list|
        ensures list[i].tokens != k
      {
        CanonicalMember(all, front, list[i]);
      }
    }
  }

  /** A canonical sentence stands for `x`: the same tokens and labels, and `x` does not come before it, where
      Test comes before Train and Train before Valid, and the index decides within a split. */
  predicate StandsFor(y: Sentence, x: Sentence) {
    && y.tokens == x.tokens && y.labels == x.labels
    && (x.split == Test ==> y.split == Test) && (x.split == Train ==> y.split != Valid)
    && (x.split == y.split ==> y.index <= x.index)
  }

  lemma {:induction false} CleanIsRepresented(all: seq<Sentence>, ks: seq<Tokens>, x: Sentence) returns (y: Sentence)
    requires AllOccur(all, ks) && x in all && x.tokens in ks && !Ambiguous(Same(all, x.tokens)) && !Invalid(x.labels)
    ensures y in CanonicalFrom(all, ks) && StandsFor(y, x)
  {
    hide Invalid;
    var front, k := ks[..|ks| - 1], ks[|ks| - 1];
    var occ := Same(all, k);
    if k == x.tokens {
      assert x in occ && occ[0] in occ;
      var i :| 0 <= i < |occ| && occ[i] == x;
      y := Least(occ);
      var j :| 0 <= j < |occ| && occ[j] == y;
    } else {
      assert ks == front + [k];
      y := CleanIsRepresented(all, front, x);
    }
  }

  predicate Represented(r: seq<Sentence>, x: Sentence) {
    exists i :: 0 <= i < |r| && StandsFor(r[i], x)
  }

  lemma Represents(r: seq<Sentence>, y: Sentence, x: Sentence)
    requires y in r && StandsFor(y, x)
    ensures Represented(r, x)
  {
    var i :| 0 <= i < |r| && r[i] == y;
    assert StandsFor(r[i], x);
  }

  /** Main result. The canonical sentences are source sentences, unambiguous, without transition defects,
      no two share a token sequence, and every sentence of an unambiguous group without defects is
      represented, by the first occurrence of its group. */
  lemma CanonicalGroupsUnique(p: Parsed, hash: Tokens -> string)
    ensures var r := CanonicalOf(p, hash);
            && TokensDistinct(r)
            && (forall x :: x in r ==> x in p.All() && !Ambiguous(Same(p.All(), x.tokens)) && !Invalid(x.labels))
            && forall x :: x in p.All() && !Ambiguous(Same(p.All(), x.tokens)) && !Invalid(x.labels) ==>
                 Represented(r, x)
  {
    hide Invalid, Ambiguous, Represented, StandsFor, Same, Distinct;
    KeysAllOccur(p.All());
    var keys := Keys(p.All(), TokensOf);
    var list := CanonicalFrom(p.All(), keys);
    CanonicalDistinct(p.All(), keys);
    forall x | x in CanonicalOf(p, hash)
      ensures x in list && x in p.All() && !Ambiguous(Same(p.All(), x.tokens)) && !Invalid(x.labels)
    {
      SameMembers(list, ByHash(hash), x);
      CanonicalMember(p.All(), keys, x);
    }
    forall x | x in p.All() && !Ambiguous(Same(p.All(), x.tokens)) && !Invalid(x.labels)
      ensures Represented(CanonicalOf(p, hash), x)
    {
      KeyListed(p.All(), x);
      var y := CleanIsRepresented(p.All(), keys, x);
      SameMembers(list, ByHash(hash), y);
      Represents(CanonicalOf(p, hash), y, x);
    }
    DistinctTokensDiffer(list);
    SortKeepsDistinct(list, ByHash(hash));
    SortedTokensDistinct(list, CanonicalOf(p, hash));
  }

  lemma DistinctTokensDiffer(xs: seq<Sentence>)
    requires TokensDistinct(xs)
    ensures Distinct(xs)
  {
  }

  lemma KeyListed(all: seq<Sentence>, x: Sentence)
    requires x in all
    ensures x.tokens in Keys(all, TokensOf)
  {
    var i :| 0 <= i < |all| && all[i] == x;
    assert TokensOf(all[i]) in Keys(all, TokensOf);
  }

  lemma SortedTokensDistinct(list: seq<Sentence>, sorted: seq<Sentence>)
    requires TokensDistinct(list) && Distinct(sorted) && forall x :: x in sorted ==> x in list
    ensures TokensDistinct(sorted)
  {
    forall i, j | 0 <= i < j < |sorted|
      ensures sorted[i].tokens != sorted[j].tokens
    {
      assert sorted[i] in list && sorted[j] in list;
      var m :| 0 <= m < |list| && list[m] == sorted[i];
      var n :| 0 <= n < |list| && list[n] == sorted[j];
    }
  }

  // ---------------------------------------------------------------- the groups the allocation sees

  function TypesFrom(spans: seq<Bio.Span>): (r: seq<string>)
    ensures Distinct(r) && forall t :: t in r <==> exists i :: 0 <= i < |spans| && spans[i].t == t
  {
    if spans == [] then []
    else
      var front, t := TypesFrom(spans[..|spans| - 1]), spans[|spans| - 1].t;
      assert forall i :: 0 <= i < |spans| - 1 ==> spans[..|spans| - 1][i] == spans[i];
      if t in front then front else front + [t]
  }

  /** `entity_types`: the types of the spans, each once, sorted. */
  function EntityTypes(labels: seq<string>): seq<string>
    requires Bio.Splittable(labels)
  {
    Sort(TypesFrom(Bio.Spans(Bio.SpanTags(labels))), StringLe)
  }

  function LengthBin(n: nat): string {
    if n <= 16 then "01-16" else if n <= 32 then "17-32" else if n <= 64 then "33-64" else "65-plus"
  }

  function GroupOf(x: Sentence, hash: Tokens -> string): Allocation.Group
    requires Bio.Splittable(x.labels)
  {
    Allocation.Group(hash(x.tokens), EntityTypes(x.labels), LengthBin(|x.tokens|))
  }

  function GroupsFor(xs: seq<Sentence>, hash: Tokens -> string): (g: seq<Allocation.Group>)
    requires forall i :: 0 <= i < |xs| ==> Bio.Splittable(xs[i].labels)
    ensures |g| == |xs| && forall i :: 0 <= i < |xs| ==> g[i] == GroupOf(xs[i], hash)
  {
    seq(|xs|, i requires 0 <= i < |xs| => GroupOf(xs[i], hash))
  }

  /** The length bins: up to 16 tokens, up to 32, up to 64, and longer. */
  lemma LengthBinIff(n: nat)
    ensures LengthBin(n) == "01-16" <==> n <= 16
    ensures LengthBin(n) == "17-32" <==> 17 <= n <= 32
    ensures LengthBin(n) == "33-64" <==> 33 <= n <= 64
    ensures LengthBin(n) == "65-plus" <==> n >= 65
  {
    assert LengthBin(n)[0] == if n <= 16 then '0' else if n <= 32 then '1' else if n <= 64 then '3' else '6';
  }

  /** The entity types of a group are the types of its entities, each once, in name order. */
  lemma EntityTypesAre(labels: seq<string>, t: string)
    requires Bio.Splittable(labels)
    ensures t in EntityTypes(labels) <==> exists s :: Bio.IsEntity(Bio.SpanTags(labels), s) && s.t == t
    ensures Distinct(EntityTypes(labels))
    ensures var r := EntityTypes(labels); forall i, j :: 0 <= i < j < |r| ==> StringLe(r[i], r[j])
  {
    hide StringLe, Bio.SpanTags, Bio.IsEntity, Bio.Spans, Sort;
    var spans := Bio.Spans(Bio.SpanTags(labels));
    Bio.SpansMeaning(Bio.SpanTags(labels));
    SameMembers(TypesFrom(spans), StringLe, t);
    TypesOnce(labels);
    StringPreorder();
    SortAscends(TypesFrom(spans), StringLe);
    if s :| Bio.IsEntity(Bio.SpanTags(labels), s) && s.t == t {
      assert s in spans;
      var i :| 0 <= i < |spans| && spans[i] == s;
    }
    if i :| 0 <= i < |spans| && spans[i].t == t {
      assert spans[i] in spans;
    }
  }

  lemma TypesOnce(labels: seq<string>)
    requires Bio.Splittable(labels)
    ensures Distinct(EntityTypes(labels))
  {
    SortKeepsDistinct(TypesFrom(Bio.Spans(Bio.SpanTags(labels))), StringLe);
  }

  /** What the allocation is told about a sentence. */
  lemma GroupSays(xs: seq<Sentence>, hash: Tokens -> string, i: nat)
    requires i < |xs| && forall j :: 0 <= j < |xs| ==> Bio.Splittable(xs[j].labels)
    ensures var g := GroupsFor(xs, hash)[i];
            && g.id == hash(xs[i].tokens) && g.types == EntityTypes(xs[i].labels)
            && (g.bin == "01-16" <==> |xs[i].tokens| <= 16) && (g.bin == "17-32" <==> 17 <= |xs[i].tokens| <= 32)
            && (g.bin == "33-64" <==> 33 <= |xs[i].tokens| <= 64) && (g.bin == "65-plus" <==> |xs[i].tokens| >= 65)
  {
    hide EntityTypes, LengthBin;
    LengthBinIff(|xs[i].tokens|);
  }

  /** Main result. If the hash tells token sequences apart, the canonical groups have unique ids, so the
      first condition of a successful allocation always holds; and they meet what the allocation asks. */
  lemma CanonicalIdsUnique(p: Parsed, hash: Tokens -> string)
    requires forall a, b :: hash(a) == hash(b) ==> a == b
    requires forall i :: 0 <= i < |CanonicalOf(p, hash)| ==> Bio.Splittable(CanonicalOf(p, hash)[i].labels)
    ensures Allocation.UniqueIds(GroupsFor(CanonicalOf(p, hash), hash))
    ensures AllocateGroups.TypesDistinct(GroupsFor(CanonicalOf(p, hash), hash))
  {
    hide CanonicalOf, EntityTypes;
    CanonicalGroupsUnique(p, hash);
    var r := CanonicalOf(p, hash);
    forall i | 0 <= i < |r|
      ensures Distinct(EntityTypes(r[i].labels))
    {
      TypesOnce(r[i].labels);
    }
  }
}
