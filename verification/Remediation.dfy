/** Decontamination of the three splits: what is removed, what stays, and the gates on the result. */
module Remediation {
  import opened Targets
  import opened Sequences
  import opened Groups
  import opened RawItems
  import Bio

  type Tokens = seq<string>

  function TokensOf(x: Sentence): Tokens {
    x.tokens
  }

  function Same(xs: seq<Sentence>, k: Tokens): seq<Sentence> {
    Occurrences(xs, TokensOf, k)
  }

  function Precedence(s: Split): nat {
    match s case Train => 0 case Valid => 1 case Test => 2
  }

  /** The highest-precedence split a group occurs in. */
  function TargetSplit(occ: seq<Sentence>): (s: Split)
    requires occ != []
    ensures exists x :: x in occ && x.split == s
    ensures forall x :: x in occ ==> Precedence(x.split) <= Precedence(s)
  {
    var z := occ[|occ| - 1];
    if |occ| == 1 then assert z in occ; z.split
    else
      var s := TargetSplit(occ[..|occ| - 1]);
      assert occ == occ[..|occ| - 1] + [z];
      if Precedence(z.split) > Precedence(s) then z.split else s
  }

  /** The occurrence of split s with the least index. */
  function FirstIn(occ: seq<Sentence>, s: Split): (x: Sentence)
    requires exists x :: x in occ && x.split == s
    ensures x in occ && x.split == s
    ensures forall y :: y in occ && y.split == s ==> x.index <= y.index
  {
    var front, z := occ[..|occ| - 1], occ[|occ| - 1];
    assert occ == front + [z];
    if exists x :: x in front && x.split == s then
      var x := FirstIn(front, s);
      if z.split == s && z.index < x.index then z else x
    else z
  }

  /** What the policy does to an occurrence. */
  datatype Fate = Conflicting | InvalidBio | OtherSplit | Repeated | Kept

  predicate Invalid(labels: seq<string>) {
    Bio.Defects(labels, |labels|) != []
  }

  function FateIn(occ: seq<Sentence>, x: Sentence): Fate
    requires occ != []
  {
    if Ambiguous(occ) then Conflicting
    else if Invalid(occ[0].labels) then InvalidBio
    else if x.split != TargetSplit(occ) then OtherSplit
    else if x != FirstIn(occ, TargetSplit(occ)) then Repeated
    else Kept
  }

  function FateOf(all: seq<Sentence>, x: Sentence): Fate
    requires x in all
  {
    assert x in Same(all, x.tokens);
    FateIn(Same(all, x.tokens), x)
  }

  predicate Within(xs: seq<Sentence>, all: seq<Sentence>) {
    forall i :: 0 <= i < |xs| ==> xs[i] in all
  }

  /** How many of xs, with tokens among ks, meet fate f. */
  function Count(xs: seq<Sentence>, all: seq<Sentence>, ks: seq<Tokens>, f: Fate): nat
    requires Within(xs, all)
  {
    if xs == [] then 0
    else
      var z := xs[|xs| - 1];
      Count(xs[..|xs| - 1], all, ks, f) + if z.tokens in ks && FateOf(all, z) == f then 1 else 0
  }

  /** How many occurrences of one group meet fate f. */
  function CountIn(xs: seq<Sentence>, occ: seq<Sentence>, f: Fate): nat
    requires occ != []
  {
    if xs == [] then 0 else CountIn(xs[..|xs| - 1], occ, f) + if FateIn(occ, xs[|xs| - 1]) == f then 1 else 0
  }

  /** The sentences of xs that are kept, in order. */
  function KeptIn(xs: seq<Sentence>, all: seq<Sentence>): (r: seq<Sentence>)
    requires Within(xs, all)
    ensures forall x :: x in r <==> x in xs && FateOf(all, x) == Kept
  {
    if xs == [] then []
    else
      var z := xs[|xs| - 1];
      assert xs == xs[..|xs| - 1] + [z];
      KeptIn(xs[..|xs| - 1], all) + if FateOf(all, z) == Kept then [z] else []
  }

  lemma {:induction false} KeptRises(xs: seq<Sentence>, all: seq<Sentence>)
    requires Within(xs, all) && Rising(xs)
    ensures Rising(KeptIn(xs, all))
  {
    hide FateOf;
    if xs != [] {
      var front, z := xs[..|xs| - 1], xs[|xs| - 1];
      KeptRises(front, all);
      var r := KeptIn(front, all);
      forall i | 0 <= i < |r|
        ensures r[i].index < z.index
      {
        assert r[i] in front;
      }
    }
  }

  /** The sentence a group contributes to split s, if any. */
  function Selected(occ: seq<Sentence>, s: Split): seq<Sentence>
    requires occ != []
  {
    if Ambiguous(occ) || Invalid(occ[0].labels) || TargetSplit(occ) != s then [] else [FirstIn(occ, s)]
  }

  predicate AllOccur(all: seq<Sentence>, ks: seq<Tokens>) {
    forall i :: 0 <= i < |ks| ==> Same(all, ks[i]) != []
  }

  /** `retained[s]` before sorting: one sentence for each group that is kept in s. */
  function SelectedFrom(all: seq<Sentence>, ks: seq<Tokens>, s: Split): seq<Sentence>
    requires AllOccur(all, ks)
  {
    if ks == [] then [] else SelectedFrom(all, ks[..|ks| - 1], s) + Selected(Same(all, ks[|ks| - 1]), s)
  }

  // ---------------------------------------------------------------- gates

  datatype Gates = Gates(trainValid: bool, trainTest: bool, validTest: bool, conflicts: bool, bio: bool, labels: bool) {
    predicate AllPassed() {
      trainValid && trainTest && validTest && conflicts && bio && labels
    }
  }

  function TokenSet(xs: seq<Sentence>): set<Tokens> {
    set i | 0 <= i < |xs| :: xs[i].tokens
  }

  predicate NoConflict(xs: seq<Sentence>) {
    forall k :: k in TokenSet(xs) ==> !Ambiguous(Same(xs, k))
  }

  function LabelSet(xs: seq<Sentence>): set<string> {
    set i, j | 0 <= i < |xs| && 0 <= j < |xs[i].labels| :: xs[i].labels[j]
  }

  /** The labels that occur on some token. */
  lemma LabelsAre(xs: seq<Sentence>, lab: string)
    ensures lab in LabelSet(xs) <==> exists x :: x in xs && lab in x.labels
  {
    if x :| x in xs && lab in x.labels {
      var i :| 0 <= i < |xs| && xs[i] == x;
      var j :| 0 <= j < |x.labels| && x.labels[j] == lab;
      assert xs[i].labels[j] in LabelSet(xs);
    }
    if lab in LabelSet(xs) {
      var i, j :| 0 <= i < |xs| && 0 <= j < |xs[i].labels| && xs[i].labels[j] == lab;
      assert xs[i] in xs;
    }
  }

  function GatesOf(q: Parsed, expected: Option<nat>): Gates {
    Gates(TokenSet(q.train) * TokenSet(q.valid) == {},
          TokenSet(q.train) * TokenSet(q.test) == {},
          TokenSet(q.valid) * TokenSet(q.test) == {},
          NoConflict(q.train) && NoConflict(q.valid) && NoConflict(q.test),
          forall i :: 0 <= i < |q.All()| ==> !Invalid(q.All()[i].labels),
          expected.None? || |LabelSet(q.All())| == expected.value)
  }

  // ---------------------------------------------------------------- the program

  datatype Audit = Audit(conflicting: nat, invalidBio: nat, crossSplit: nat, duplicates: nat)

  datatype Outcome = FailedGates(gates: Gates) | Derived(retained: Parsed, audit: Audit)

  lemma SameLast(xs: seq<Sentence>, k: Tokens)
    requires xs != []
    ensures var front, z := xs[..|xs| - 1], xs[|xs| - 1];
            Same(xs, k) == if z.tokens == k then Same(front, k) + [z] else Same(front, k)
  {
  }

  lemma CountInLast(xs: seq<Sentence>, z: Sentence, occ: seq<Sentence>, f: Fate)
    requires occ != []
    ensures CountIn(xs + [z], occ, f) == CountIn(xs, occ, f) + if FateIn(occ, z) == f then 1 else 0
  {
    hide FateIn;
    assert (xs + [z])[..|xs|] == xs;
  }

  /** Counting one more key counts its group. */
  lemma {:induction false} CountStep(xs: seq<Sentence>, all: seq<Sentence>, ks: seq<Tokens>, k: Tokens, f: Fate)
    requires Within(xs, all) && k !in ks && Same(all, k) != []
    ensures Count(xs, all, ks + [k], f) == Count(xs, all, ks, f) + CountIn(Same(xs, k), Same(all, k), f)
  {
    hide FateIn, Same, CountIn;
    if xs == [] {
      NoneToCount(k, Same(all, k), f);
    } else {
      var front, z := xs[..|xs| - 1], xs[|xs| - 1];
      CountStep(front, all, ks, k, f);
      SameLast(xs, k);
      CountInLast(Same(front, k), z, Same(all, k), f);
      assert z.tokens in ks + [k] <==> z.tokens in ks || z.tokens == k;
    }
  }

  lemma NoneToCount(k: Tokens, occ: seq<Sentence>, f: Fate)
    requires occ != []
    ensures Same([], k) == [] && CountIn([], occ, f) == 0
  {
  }

  lemma {:induction false} CountNothing(xs: seq<Sentence>, all: seq<Sentence>, f: Fate)
    requires Within(xs, all)
    ensures Count(xs, all, [], f) == 0
  {
    if xs != [] {
      CountNothing(xs[..|xs| - 1], all, f);
    }
  }

  /** A rejected group meets one fate. */
  lemma {:induction false} UniformFate(xs: seq<Sentence>, occ: seq<Sentence>, f: Fate)
    requires occ != [] && (Ambiguous(occ) || Invalid(occ[0].labels))
    ensures CountIn(xs, occ, f) == if f == (if Ambiguous(occ) then Conflicting else InvalidBio) then |xs| else 0
  {
    if xs != [] {
      UniformFate(xs[..|xs| - 1], occ, f);
    }
  }

  /** The inner loop: every occurrence but the selected one is counted by its split. */
  method CountRemoved(occ: seq<Sentence>, target: Split, selected: Sentence) returns (crossSplit: nat, duplicates: nat)
    requires occ != [] && !Ambiguous(occ) && !Invalid(occ[0].labels)
    requires target == TargetSplit(occ) && selected == FirstIn(occ, target)
    ensures crossSplit == CountIn(occ, occ, OtherSplit) && duplicates == CountIn(occ, occ, Repeated)
  {
    crossSplit, duplicates := 0, 0;
    for k := 0 to |occ|
      invariant crossSplit == CountIn(occ[..k], occ, OtherSplit) && duplicates == CountIn(occ[..k], occ, Repeated)
    {
      assert occ[..k + 1][..k] == occ[..k];
      if occ[k] != selected {
        if occ[k].split != target {
          crossSplit := crossSplit + 1;
        } else {
          duplicates := duplicates + 1;
        }
      }
    }
    assert occ[..|occ|] == occ;
  }

  lemma {:induction false} CleanHasNoRejects(xs: seq<Sentence>, occ: seq<Sentence>, f: Fate)
    requires occ != [] && !Ambiguous(occ) && !Invalid(occ[0].labels) && (f == Conflicting || f == InvalidBio)
    ensures CountIn(xs, occ, f) == 0
  {
    if xs != [] {
      CleanHasNoRejects(xs[..|xs| - 1], occ, f);
    }
  }

  /** One group: what it adds to the audit and to the retained lists. */
  method RemediateGroup(occ: seq<Sentence>, audit0: Audit, retained0: Parsed) returns (audit: Audit, retained: Parsed)
    requires occ != []
    ensures audit == Audit(audit0.conflicting + CountIn(occ, occ, Conflicting),
                           audit0.invalidBio + CountIn(occ, occ, InvalidBio),
                           audit0.crossSplit + CountIn(occ, occ, OtherSplit),
                           audit0.duplicates + CountIn(occ, occ, Repeated))
    ensures retained == Parsed(retained0.train + Selected(occ, Train), retained0.valid + Selected(occ, Valid),
                               retained0.test + Selected(occ, Test))
  {
    hide CountIn, FirstIn, TargetSplit, Ambiguous, Invalid;
    var defects := Bio.InvalidBioTransitions(occ[0].labels);
    assert defects != [] <==> Invalid(occ[0].labels) by { InvalidIsDefects(occ[0].labels); }
    if Ambiguous(occ) || defects != [] {
      forall f
        ensures CountIn(occ, occ, f) == if f == (if Ambiguous(occ) then Conflicting else InvalidBio) then |occ| else 0
      {
        UniformFate(occ, occ, f);
      }
      retained := retained0;
      audit := if Ambiguous(occ) then audit0.(conflicting := audit0.conflicting + |occ|)
               else audit0.(invalidBio := audit0.invalidBio + |occ|);
    } else {
      CleanHasNoRejects(occ, occ, Conflicting);
      CleanHasNoRejects(occ, occ, InvalidBio);
      var target := TargetSplit(occ);
      var selected := FirstIn(occ, target);
      retained := match target
        case Train => retained0.(train := retained0.train + [selected])
        case Valid => retained0.(valid := retained0.valid + [selected])
        case Test => retained0.(test := retained0.test + [selected]);
      var crossSplit, duplicates := CountRemoved(occ, target, selected);
      audit := audit0.(crossSplit := audit0.crossSplit + crossSplit, duplicates := audit0.duplicates + duplicates);
    }
  }

  lemma InvalidIsDefects(labels: seq<string>)
    ensures Invalid(labels) <==> Bio.Defects(labels, |labels|) != []
  {
  }

  function AuditOf(all: seq<Sentence>, ks: seq<Tokens>): Audit {
    Audit(Count(all, all, ks, Conflicting), Count(all, all, ks, InvalidBio), Count(all, all, ks, OtherSplit),
          Count(all, all, ks, Repeated))
  }

  function SelectedOf(all: seq<Sentence>, ks: seq<Tokens>): Parsed
    requires AllOccur(all, ks)
  {
    Parsed(SelectedFrom(all, ks, Train), SelectedFrom(all, ks, Valid), SelectedFrom(all, ks, Test))
  }

  lemma NextGroup(all: seq<Sentence>, ks: seq<Tokens>, n: nat)
    requires n < |ks| && Distinct(ks) && AllOccur(all, ks)
    ensures var occ, a, p := Same(all, ks[n]), AuditOf(all, ks[..n]), SelectedOf(all, ks[..n]);
            && AuditOf(all, ks[..n + 1]) ==
                 Audit(a.conflicting + CountIn(occ, occ, Conflicting), a.invalidBio + CountIn(occ, occ, InvalidBio),
                       a.crossSplit + CountIn(occ, occ, OtherSplit), a.duplicates + CountIn(occ, occ, Repeated))
            && SelectedOf(all, ks[..n + 1]) ==
                 Parsed(p.train + Selected(occ, Train), p.valid + Selected(occ, Valid), p.test + Selected(occ, Test))
  {
    hide Count, CountIn, Same, Selected;
    assert ks[..n + 1] == ks[..n] + [ks[n]] && ks[..n + 1][..n] == ks[..n] && ks[n] !in ks[..n];
    CountStep(all, all, ks[..n], ks[n], Conflicting);
    CountStep(all, all, ks[..n], ks[n], InvalidBio);
    CountStep(all, all, ks[..n], ks[n], OtherSplit);
    CountStep(all, all, ks[..n], ks[n], Repeated);
  }

  function SortedSplits(p: Parsed): Parsed {
    Parsed(Sort(p.train, IndexLe), Sort(p.valid, IndexLe), Sort(p.test, IndexLe))
  }

  function Retained(p: Parsed): Parsed {
    Parsed(KeptIn(p.train, p.All()), KeptIn(p.valid, p.All()), KeptIn(p.test, p.All()))
  }

  method Remediate(parsed: Parsed, expected: Option<nat>) returns (r: Outcome)
    requires WellFormed(parsed)
    ensures r.FailedGates? <==> expected.Some? && |LabelSet(Retained(parsed).All())| != expected.value
    ensures r.Derived? ==>
              r.retained == Retained(parsed) && r.audit == AuditOf(parsed.All(), Keys(parsed.All(), TokensOf))
  {
    hide Count, CountIn, Same, Selected, KeptIn, Keys, Occurrences, WellFormedSplit;
    var all := parsed.All();
    var keys, groups := GroupBy(all, TokensOf);
    KeysAllOccur(all);
    var audit, retained := Audit(0, 0, 0, 0), Parsed([], [], []);
    NothingCounted(all);
    assert keys[..0] == [];
    for n := 0 to |keys|
      invariant audit == AuditOf(all, keys[..n]) && retained == SelectedOf(all, keys[..n])
    {
      NextGroup(all, keys, n);
      GroupIsSame(all, groups, keys[n]);
      audit, retained := RemediateGroup(Listed(groups, keys[n]), audit, retained);
    }
    assert keys[..|keys|] == keys;
    retained := SortedSplits(retained);
    SortedIsKept(parsed);
    GatesPass(parsed, expected);
    var gates := GatesOf(retained, expected);
    r := if gates.AllPassed() then Derived(retained, audit) else FailedGates(gates);
  }

  lemma GroupIsSame(all: seq<Sentence>, groups: map<Tokens, seq<Sentence>>, k: Tokens)
    requires Listed(groups, k) == Occurrences(all, TokensOf, k)
    ensures Listed(groups, k) == Same(all, k)
  {
  }

  lemma KeysAllOccur(all: seq<Sentence>)
    ensures AllOccur(all, Keys(all, TokensOf)) && Distinct(Keys(all, TokensOf))
  {
    forall i | 0 <= i < |Keys(all, TokensOf)|
      ensures Same(all, Keys(all, TokensOf)[i]) != []
    {
      KeysOccur(all, TokensOf, Keys(all, TokensOf)[i]);
    }
  }

  lemma NothingCounted(all: seq<Sentence>)
    ensures AuditOf(all, []) == Audit(0, 0, 0, 0) && SelectedOf(all, []) == Parsed([], [], [])
  {
    CountNothing(all, all, Conflicting);
    CountNothing(all, all, InvalidBio);
    CountNothing(all, all, OtherSplit);
    CountNothing(all, all, Repeated);
  }

  // ---------------------------------------------------------------- what is retained

  lemma SelectedIsKept(all: seq<Sentence>, k: Tokens, s: Split, x: Sentence)
    requires Same(all, k) != []
    ensures x in Selected(Same(all, k), s) <==> x in all && x.tokens == k && x.split == s && FateOf(all, x) == Kept
  {
    hide FirstIn, TargetSplit, Invalid;
    var occ := Same(all, k);
    assert x in occ <==> x in all && x.tokens == k;
  }

  lemma {:induction false} SelectedMembers(all: seq<Sentence>, ks: seq<Tokens>, s: Split, x: Sentence)
    requires AllOccur(all, ks)
    ensures x in SelectedFrom(all, ks, s) <==> x in all && x.tokens in ks && x.split == s && FateOf(all, x) == Kept
  {
    hide Same, Selected, FateOf;
    if ks != [] {
      var front, k := ks[..|ks| - 1], ks[|ks| - 1];
      assert ks == front + [k];
      SelectedMembers(all, front, s, x);
      SelectedIsKept(all, k, s, x);
    }
  }

  lemma {:induction false} SelectedDistinct(all: seq<Sentence>, ks: seq<Tokens>, s: Split)
    requires AllOccur(all, ks) && Distinct(ks)
    ensures Distinct(SelectedFrom(all, ks, s))
  {
    hide Same, FateOf, FirstIn;
    if ks != [] {
      var front, k := ks[..|ks| - 1], ks[|ks| - 1];
      SelectedDistinct(all, front, s);
      var list, last := SelectedFrom(all, front, s), Selected(Same(all, k), s);
      forall i | 0 <= i < |list| && last != []
        ensures list[i] != last[0]
      {
        SelectedMembers(all, front, s, list[i]);
        SelectedIsKept(all, k, s, last[0]);
      }
    }
  }

  lemma AllWithin(p: Parsed)
    ensures forall s: Split :: Within(p.At(s), p.All())
  {
  }

  lemma KeyListed(all: seq<Sentence>, x: Sentence)
    requires x in all
    ensures x.tokens in Keys(all, TokensOf)
  {
    var i :| 0 <= i < |all| && all[i] == x;
    assert TokensOf(all[i]) in Keys(all, TokensOf);
  }

  lemma SortedRises(p: Parsed, xs: seq<Sentence>, s: Split)
    requires WellFormed(p) && Distinct(xs) && forall x :: x in xs ==> x in p.All() && x.split == s
    ensures Rising(Sort(xs, IndexLe))
  {
    hide WellFormed;
    var r := Sort(xs, IndexLe);
    SortAscends(xs, IndexLe);
    SortKeepsDistinct(xs, IndexLe);
    forall i, j | 0 <= i < j < |r|
      ensures r[i].index < r[j].index
    {
      assert IndexLe(r[i], r[j]);
      SameMembers(xs, IndexLe, r[i]);
      SameMembers(xs, IndexLe, r[j]);
      if r[i].index == r[j].index {
        SameIndex(p, r[i], r[j]);
      }
    }
  }

  lemma SplitIsKept(p: Parsed, s: Split)
    requires WellFormed(p) && AllOccur(p.All(), Keys(p.All(), TokensOf))
    ensures Sort(SelectedFrom(p.All(), Keys(p.All(), TokensOf), s), IndexLe) == KeptIn(p.At(s), p.All())
  {
    hide SelectedFrom, FateOf, AllOccur;
    var all := p.All();
    var list := SelectedFrom(all, Keys(all, TokensOf), s);
    SelectedDistinct(all, Keys(all, TokensOf), s);
    forall x
      ensures x in list <==> x in p.At(s) && FateOf(all, x) == Kept
    {
      SelectedMembers(all, Keys(all, TokensOf), s, x);
      InSplit(p, x, s);
      if x in all {
        KeyListed(all, x);
      }
    }
    AllWithin(p);
    SortedRises(p, list, s);
    forall x
      ensures x in Sort(list, IndexLe) <==> x in KeptIn(p.At(s), all)
    {
      SameMembers(list, IndexLe, x);
    }
    assert WellFormedSplit(p.At(s), s);
    KeptRises(p.At(s), all);
    RisingUnique(Sort(list, IndexLe), KeptIn(p.At(s), all));
  }

  lemma InSplit(p: Parsed, x: Sentence, s: Split)
    requires WellFormed(p)
    ensures x in p.At(s) <==> x in p.All() && x.split == s
  {
    InItsSplit(p, x);
    assert WellFormedSplit(p.At(s), s);
    match s case Train => case Valid => case Test =>
  }

  /** Main result. Sorting what the group loop collects gives the kept sentences of each split in
      source order. */
  lemma SortedIsKept(p: Parsed)
    requires WellFormed(p)
    ensures AllOccur(p.All(), Keys(p.All(), TokensOf))
    ensures SortedSplits(SelectedOf(p.All(), Keys(p.All(), TokensOf))) == Retained(p)
  {
    hide WellFormed, SelectedFrom, AllOccur, KeptIn, Keys, Sort, Within;
    KeysAllOccur(p.All());
    AllWithin(p);
    SplitIsKept(p, Train);
    SplitIsKept(p, Valid);
    SplitIsKept(p, Test);
  }

  // ---------------------------------------------------------------- the gates

  /** At most one sentence of a token sequence is kept. */
  lemma KeptUnique(all: seq<Sentence>, x: Sentence, y: Sentence)
    requires x in all && y in all && x.tokens == y.tokens && FateOf(all, x) == Kept && FateOf(all, y) == Kept
    ensures x == y
  {
  }

  lemma SplitHasNoConflict(xs: seq<Sentence>, all: seq<Sentence>)
    requires Within(xs, all) && forall x :: x in xs ==> FateOf(all, x) == Kept
    ensures NoConflict(xs)
  {
    forall k | k in TokenSet(xs)
      ensures !Ambiguous(Same(xs, k))
    {
      var occ := Same(xs, k);
      forall i | 0 <= i < |occ|
        ensures occ[i] == occ[0]
      {
        assert occ[i] in occ && occ[0] in occ;
        KeptUnique(all, occ[i], occ[0]);
      }
    }
  }

  lemma SplitsShareNothing(a: seq<Sentence>, b: seq<Sentence>, s: Split, t: Split, all: seq<Sentence>)
    requires s != t
    requires forall x :: x in a ==> x in all && x.split == s && FateOf(all, x) == Kept
    requires forall x :: x in b ==> x in all && x.split == t && FateOf(all, x) == Kept
    ensures TokenSet(a) * TokenSet(b) == {}
  {
    hide FateOf;
    forall k | k in TokenSet(a) && k in TokenSet(b)
      ensures false
    {
      var i :| 0 <= i < |a| && a[i].tokens == k;
      var j :| 0 <= j < |b| && b[j].tokens == k;
      assert a[i] in a && b[j] in b;
      KeptUnique(all, a[i], b[j]);
    }
  }

  lemma KeptIsValid(all: seq<Sentence>, x: Sentence)
    requires x in all && FateOf(all, x) == Kept
    ensures !Invalid(x.labels)
  {
    hide Invalid;
    var occ := Same(all, x.tokens);
    assert x in occ;
    var i :| 0 <= i < |occ| && occ[i] == x;
  }

  /** Every retained sentence of split s comes from the source and is kept. */
  lemma RetainedMembers(p: Parsed, s: Split)
    requires WellFormed(p)
    ensures forall x :: x in Retained(p).At(s) <==> x in p.All() && x.split == s && FateOf(p.All(), x) == Kept
  {
    hide WellFormed, FateOf, KeptIn;
    AllWithin(p);
    forall x
      ensures x in Retained(p).At(s) <==> x in p.All() && x.split == s && FateOf(p.All(), x) == Kept
    {
      InSplit(p, x, s);
      match s case Train => case Valid => case Test =>
    }
  }

  /** Main result. Every gate but the label count passes on every input. */
  lemma GatesPass(p: Parsed, expected: Option<nat>)
    requires WellFormed(p)
    ensures GatesOf(Retained(p), expected)
            == Gates(true, true, true, true, true, expected.None? || |LabelSet(Retained(p).All())| == expected.value)
  {
    hide WellFormed, FateOf, Retained, TokenSet, NoConflict, LabelSet;
    var q, all := Retained(p), p.All();
    RetainedMembers(p, Train);
    RetainedMembers(p, Valid);
    RetainedMembers(p, Test);
    assert q.At(Train) == q.train && q.At(Valid) == q.valid && q.At(Test) == q.test;
    SplitsShareNothing(q.train, q.valid, Train, Valid, all);
    SplitsShareNothing(q.train, q.test, Train, Test, all);
    SplitsShareNothing(q.valid, q.test, Valid, Test, all);
    SplitHasNoConflict(q.train, all);
    SplitHasNoConflict(q.valid, all);
    SplitHasNoConflict(q.test, all);
    forall i | 0 <= i < |q.All()|
      ensures !Invalid(q.All()[i].labels)
    {
      assert q.All()[i] in q.train || q.All()[i] in q.valid || q.All()[i] in q.test;
      KeptIsValid(all, q.All()[i]);
    }
  }

  /** All gates pass exactly when no two retained sentences of different splits share their tokens, none of
      one split contradict each other, none has a defect, and the labels are as many as expected. */
  lemma GatesMean(q: Parsed, expected: Option<nat>)
    ensures GatesOf(q, expected).AllPassed() <==>
              && NothingShared(q.train, q.valid) && NothingShared(q.train, q.test) && NothingShared(q.valid, q.test)
              && Agree(q.train) && Agree(q.valid) && Agree(q.test) && NoDefects(q.All())
              && (expected.Some? ==> |LabelSet(q.All())| == expected.value)
  {
    hide TokenSet, NoConflict, LabelSet, NothingShared, Agree, NoDefects;
    DisjointIff(q.train, q.valid);
    DisjointIff(q.train, q.test);
    DisjointIff(q.valid, q.test);
    NoConflictIff(q.train);
    NoConflictIff(q.valid);
    NoConflictIff(q.test);
    AllIndexed(q.All());
  }

  predicate NothingShared(a: seq<Sentence>, b: seq<Sentence>) {
    forall x, y :: x in a && y in b ==> x.tokens != y.tokens
  }

  predicate NoDefects(xs: seq<Sentence>) {
    forall x :: x in xs ==> Bio.Defects(x.labels, |x.labels|) == []
  }

  predicate Agree(xs: seq<Sentence>) {
    forall x, y :: x in xs && y in xs && x.tokens == y.tokens ==> x.labels == y.labels
  }

  lemma AllIndexed(xs: seq<Sentence>)
    ensures (forall i :: 0 <= i < |xs| ==> !Invalid(xs[i].labels)) <==> NoDefects(xs)
  {
    if forall i :: 0 <= i < |xs| ==> !Invalid(xs[i].labels) {
      forall x | x in xs
        ensures Bio.Defects(x.labels, |x.labels|) == []
      {
        var i :| 0 <= i < |xs| && xs[i] == x;
        assert !Invalid(xs[i].labels);
      }
    }
  }

  lemma DisjointIff(a: seq<Sentence>, b: seq<Sentence>)
    ensures TokenSet(a) * TokenSet(b) == {} <==> NothingShared(a, b)
  {
    if TokenSet(a) * TokenSet(b) == {} {
      forall x, y | x in a && y in b
        ensures x.tokens != y.tokens
      {
        var i :| 0 <= i < |a| && a[i] == x;
        var j :| 0 <= j < |b| && b[j] == y;
        assert a[i].tokens in TokenSet(a) && b[j].tokens in TokenSet(b);
        assert x.tokens !in TokenSet(a) * TokenSet(b);
      }
    } else {
      var k :| k in TokenSet(a) * TokenSet(b);
      var i :| 0 <= i < |a| && a[i].tokens == k;
      var j :| 0 <= j < |b| && b[j].tokens == k;
      assert a[i] in a && b[j] in b;
    }
  }

  lemma NoConflictIff(xs: seq<Sentence>)
    ensures NoConflict(xs) <==> Agree(xs)
  {
    forall x | x in xs
      ensures Ambiguous(Same(xs, x.tokens)) <==> exists i ::
                0 <= i < |xs| && xs[i].tokens == x.tokens && xs[i].labels != x.labels
    {
      AmbiguousIff(xs, x);
    }
    if NoConflict(xs) {
      forall x, y | x in xs && y in xs && x.tokens == y.tokens
        ensures x.labels == y.labels
      {
        var i :| 0 <= i < |xs| && xs[i] == x;
        var j :| 0 <= j < |xs| && xs[j] == y;
        assert xs[i].tokens in TokenSet(xs);
      }
    }
    if Agree(xs) {
      forall k | k in TokenSet(xs)
        ensures !Ambiguous(Same(xs, k))
      {
        var i :| 0 <= i < |xs| && xs[i].tokens == k;
        assert xs[i] in xs;
      }
    }
  }

  // ---------------------------------------------------------------- conservation and idempotence

  lemma {:induction false} FatesAddUp(xs: seq<Sentence>, all: seq<Sentence>, ks: seq<Tokens>)
    requires Within(xs, all) && forall x :: x in xs ==> x.tokens in ks
    ensures Count(xs, all, ks, Conflicting) + Count(xs, all, ks, InvalidBio) + Count(xs, all, ks, OtherSplit)
            + Count(xs, all, ks, Repeated) + |KeptIn(xs, all)| == |xs|
  {
    hide FateOf;
    if xs != [] {
      var front := xs[..|xs| - 1];
      assert forall x :: x in front ==> x in xs;
      FatesAddUp(front, all, ks);
      assert xs[|xs| - 1] in xs;
    }
  }

  lemma NothingKept(all: seq<Sentence>)
    ensures KeptIn([], all) == []
  {
  }

  lemma KeepsOneMore(xs: seq<Sentence>, z: Sentence, all: seq<Sentence>)
    requires Within(xs, all) && z in all
    ensures Within(xs + [z], all)
    ensures KeptIn(xs + [z], all) == KeptIn(xs, all) + if FateOf(all, z) == Kept then [z] else []
  {
    hide FateOf;
    assert (xs + [z])[..|xs|] == xs;
  }

  lemma {:induction false} KeptOfConcat(a: seq<Sentence>, b: seq<Sentence>, all: seq<Sentence>)
    requires Within(a, all) && Within(b, all)
    ensures Within(a + b, all) && KeptIn(a + b, all) == KeptIn(a, all) + KeptIn(b, all)
  {
    hide FateOf, KeptIn;
    if b == [] {
      assert a + b == a;
      NothingKept(all);
    } else {
      var front, z := b[..|b| - 1], b[|b| - 1];
      assert z in b && b == front + [z];
      KeptOfConcat(a, front, all);
      KeepsOneMore(a + front, z, all);
      KeepsOneMore(front, z, all);
      assert a + b == (a + front) + [z];
    }
  }

  lemma RetainedSize(p: Parsed)
    ensures Within(p.All(), p.All()) && Retained(p).All() == KeptIn(p.All(), p.All())
  {
    KeptOfConcat(p.train, p.valid, p.All());
    KeptOfConcat(p.train + p.valid, p.test, p.All());
  }

  /** Main result. Every occurrence is retained or counted in exactly one removal class. */
  lemma OccurrencesConserved(p: Parsed)
    ensures var a := AuditOf(p.All(), Keys(p.All(), TokensOf));
            |p.All()| == |Retained(p).All()| + a.conflicting + a.invalidBio + a.crossSplit + a.duplicates
  {
    RetainedSize(p);
    forall x | x in p.All()
      ensures x.tokens in Keys(p.All(), TokensOf)
    {
      KeyListed(p.All(), x);
    }
    FatesAddUp(p.All(), p.All(), Keys(p.All(), TokensOf));
  }

  // ---------------------------------------------------------------- what each sentence meets

  /** Some sentence with the tokens of `x` has other labels. */
  predicate Contradicted(all: seq<Sentence>, x: Sentence) {
    exists i :: 0 <= i < |all| && all[i].tokens == x.tokens && all[i].labels != x.labels
  }

  /** Some sentence with the tokens of `x` stands in a split that wins over its own: Test over Valid and
      Train, Valid over Train. */
  predicate Outranked(all: seq<Sentence>, x: Sentence) {
    exists i :: 0 <= i < |all| && all[i].tokens == x.tokens &&
                ((x.split == Train && all[i].split == Valid) || (x.split == Train && all[i].split == Test)
                 || (x.split == Valid && all[i].split == Test))
  }

  /** Some sentence with the tokens of `x` comes before it in its split. */
  predicate Preceded(all: seq<Sentence>, x: Sentence) {
    exists i :: 0 <= i < |all| && all[i].tokens == x.tokens && all[i].split == x.split && all[i].index < x.index
  }

  lemma AmbiguousIff(all: seq<Sentence>, x: Sentence)
    requires x in all
    ensures Same(all, x.tokens) != [] && (Ambiguous(Same(all, x.tokens)) <==> Contradicted(all, x))
    ensures !Contradicted(all, x) ==> Same(all, x.tokens)[0].labels == x.labels
  {
    var occ := Same(all, x.tokens);
    assert x in occ;
    var n :| 0 <= n < |occ| && occ[n] == x;
    if Ambiguous(occ) {
      var i :| 0 <= i < |occ| && occ[i].labels != occ[0].labels;
      assert occ[i] in occ && occ[0] in occ;
      var a :| 0 <= a < |all| && all[a] == occ[i];
      var b :| 0 <= b < |all| && all[b] == occ[0];
      assert all[a].labels != x.labels || all[b].labels != x.labels;
    }
    if i :| 0 <= i < |all| && all[i].tokens == x.tokens && all[i].labels != x.labels {
      assert all[i] in occ;
      var j :| 0 <= j < |occ| && occ[j] == all[i];
    }
    if occ[0].labels != x.labels {
      assert occ[0] in occ;
      var b :| 0 <= b < |all| && all[b] == occ[0];
    }
  }

  lemma TargetIff(all: seq<Sentence>, x: Sentence)
    requires x in all && Same(all, x.tokens) != []
    ensures x.split != TargetSplit(Same(all, x.tokens)) <==> Outranked(all, x)
  {
    hide Same;
    var occ := Same(all, x.tokens);
    MembersAre(all, x.tokens);
    var s := TargetSplit(occ);
    var y :| y in occ && y.split == s;
    var i :| 0 <= i < |all| && all[i] == y;
    assert x in occ && Precedence(x.split) <= Precedence(s);
    if j :| 0 <= j < |all| && all[j].tokens == x.tokens && Precedence(all[j].split) > Precedence(x.split) {
      assert all[j] in occ;
    }
  }

  lemma MembersAre(all: seq<Sentence>, k: Tokens)
    ensures forall y :: y in Same(all, k) <==> y in all && y.tokens == k
  {
  }

  lemma FirstIff(p: Parsed, x: Sentence)
    requires WellFormed(p) && x in p.All() && Same(p.All(), x.tokens) != []
    requires x.split == TargetSplit(Same(p.All(), x.tokens))
    ensures x != FirstIn(Same(p.All(), x.tokens), x.split) <==> Preceded(p.All(), x)
  {
    hide TargetSplit, FirstIn, WellFormed, Same;
    var all := p.All();
    var occ := Same(all, x.tokens);
    MembersAre(all, x.tokens);
    assert x in occ;
    var y := FirstIn(occ, x.split);
    assert y in occ && y.split == x.split;
    if x != y {
      if x.index == y.index {
        SameIndex(p, x, y);
      }
      var i :| 0 <= i < |all| && all[i] == y;
      assert all[i].index < x.index;
    }
    if j :| 0 <= j < |all| && all[j].tokens == x.tokens && all[j].split == x.split && all[j].index < x.index {
      assert all[j] in occ;
    }
  }

  /** Main result. What happens to a sentence, said of the other sentences with its tokens. */
  lemma FateMeans(p: Parsed, x: Sentence)
    requires WellFormed(p) && x in p.All()
    ensures var all := p.All();
            FateOf(all, x) ==
              if Contradicted(all, x) then Conflicting
              else if Invalid(x.labels) then InvalidBio
              else if Outranked(all, x) then OtherSplit
              else if Preceded(all, x) then Repeated
              else Kept
  {
    hide WellFormed, TargetSplit, FirstIn, Ambiguous, Invalid, Contradicted, Outranked, Preceded, Same;
    var all := p.All();
    FateUnfolds(all, x);
    AmbiguousIff(all, x);
    if !Contradicted(all, x) {
      TargetIff(all, x);
      if !Outranked(all, x) {
        FirstIff(p, x);
      }
    }
  }

  lemma FateUnfolds(all: seq<Sentence>, x: Sentence)
    requires x in all
    ensures Same(all, x.tokens) != [] && FateOf(all, x) == FateIn(Same(all, x.tokens), x)
  {
    assert x in Same(all, x.tokens);
  }

  /** Main result. A sentence is retained, in its own split, exactly when no sentence with its tokens has
      other labels, its labels have no defect, no sentence with its tokens stands in a split that wins over
      its own, and none comes before it in its split. */
  lemma RetainedIff(p: Parsed, x: Sentence)
    requires WellFormed(p)
    ensures x in Retained(p).At(x.split) <==>
              && x in p.All() && !Contradicted(p.All(), x) && Bio.Defects(x.labels, |x.labels|) == []
              && !Outranked(p.All(), x) && !Preceded(p.All(), x)
    ensures forall s :: s != x.split ==> x !in Retained(p).At(s)
  {
    hide WellFormed, FateOf, Contradicted, Outranked, Preceded, KeptIn;
    InItsSplit(p, x);
    OnlyItsSplit(p, x);
    AllWithin(p);
    if x in p.All() {
      FateMeans(p, x);
    }
    forall s: Split
      ensures x in Retained(p).At(s) ==> x in p.At(s)
    {
      match s case Train => case Valid => case Test =>
    }
  }

  lemma OnlyItsSplit(p: Parsed, x: Sentence)
    requires WellFormed(p)
    ensures forall s :: s != x.split ==> x !in p.At(s)
  {
    forall s: Split | s != x.split
      ensures x !in p.At(s)
    {
      assert WellFormedSplit(p.At(s), s);
    }
  }

  /** Main result. A group without contradicting labels and without defects is kept exactly once: as its
      least-index Test occurrence if it has one in Test, else as its least-index Valid occurrence if it has
      one in Valid, else as its least-index Train occurrence. */
  lemma CleanGroupKeptOnce(p: Parsed, k: Tokens, x: Sentence)
    requires WellFormed(p) && x in p.All() && x.tokens == k
    requires forall y :: y in p.All() && y.tokens == k ==>
               y.labels == x.labels && Bio.Defects(y.labels, |y.labels|) == []
    ensures var s := if exists y :: y in p.All() && y.tokens == k && y.split == Test then Test
                     else if exists y :: y in p.All() && y.tokens == k && y.split == Valid then Valid else Train;
            x in Retained(p).All() <==>
              x.split == s && forall y :: y in p.All() && y.tokens == k && y.split == s ==> x.index <= y.index
  {
    hide WellFormed, Retained;
    RetainedIff(p, x);
    assert x in Retained(p).All() <==> x in Retained(p).At(x.split) by { InSomeSplit(Retained(p), x); }
    assert forall i :: 0 <= i < |p.All()| ==> p.All()[i] in p.All();
  }

  lemma InSomeSplit(p: Parsed, x: Sentence)
    ensures x in p.All() <==> x in p.At(Train) || x in p.At(Valid) || x in p.At(Test)
  {
  }

  lemma KeptWellFormed(xs: seq<Sentence>, all: seq<Sentence>, s: Split)
    requires Within(xs, all) && WellFormedSplit(xs, s)
    ensures WellFormedSplit(KeptIn(xs, all), s)
  {
    hide FateOf;
    KeptRises(xs, all);
    var r := KeptIn(xs, all);
    assert forall i :: 0 <= i < |r| ==> r[i] in r;
  }

  lemma RetainedWellFormed(p: Parsed)
    requires WellFormed(p)
    ensures WellFormed(Retained(p))
  {
    hide KeptIn, WellFormedSplit;
    AllWithin(p);
    assert WellFormedSplit(p.At(Train), Train) && WellFormedSplit(p.At(Valid), Valid)
           && WellFormedSplit(p.At(Test), Test);
    KeptWellFormed(p.train, p.All(), Train);
    KeptWellFormed(p.valid, p.All(), Valid);
    KeptWellFormed(p.test, p.All(), Test);
  }

  /** Alone in its group, a valid sentence is kept. */
  lemma AloneIsKept(all: seq<Sentence>, x: Sentence)
    requires x in all && !Invalid(x.labels) && forall y :: y in all && y.tokens == x.tokens ==> y == x
    ensures FateOf(all, x) == Kept
  {
    hide Invalid;
    var occ := Same(all, x.tokens);
    assert forall i :: 0 <= i < |occ| ==> occ[i] in occ;
    assert x in occ;
    assert forall i :: 0 <= i < |occ| ==> occ[i] == x;
  }

  lemma KeptAlone(p: Parsed, x: Sentence)
    requires x in Retained(p).All()
    ensures FateOf(Retained(p).All(), x) == Kept
  {
    hide FateOf;
    RetainedSize(p);
    KeptIsValid(p.All(), x);
    forall y | y in Retained(p).All() && y.tokens == x.tokens
      ensures y == x
    {
      KeptUnique(p.All(), x, y);
    }
    AloneIsKept(Retained(p).All(), x);
  }

  lemma {:induction false} KeepAll(xs: seq<Sentence>, all: seq<Sentence>)
    requires Within(xs, all) && forall x :: x in xs ==> FateOf(all, x) == Kept
    ensures KeptIn(xs, all) == xs
  {
    hide FateOf;
    if xs != [] {
      var front, z := xs[..|xs| - 1], xs[|xs| - 1];
      assert xs == front + [z];
      KeepAll(front, all);
    }
  }

  /** Main result. Remediating a remediated dataset changes nothing. */
  lemma RemediationIdempotent(p: Parsed)
    requires WellFormed(p)
    ensures WellFormed(Retained(p)) && Retained(Retained(p)) == Retained(p)
  {
    hide WellFormed, FateOf, KeptIn, Retained;
    RetainedWellFormed(p);
    var q := Retained(p);
    AllWithin(q);
    forall x | x in q.All()
      ensures FateOf(q.All(), x) == Kept
    {
      KeptAlone(p, x);
    }
    KeepAll(q.train, q.All());
    KeepAll(q.valid, q.All());
    KeepAll(q.test, q.All());
    RetainedParts(q);
  }

  lemma RetainedParts(q: Parsed)
    ensures Within(q.train, q.All()) && Within(q.valid, q.All()) && Within(q.test, q.All())
    ensures Retained(q) == Parsed(KeptIn(q.train, q.All()), KeptIn(q.valid, q.All()), KeptIn(q.test, q.All()))
  {
  }
}
