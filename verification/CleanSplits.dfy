/** The clean derivative of the three splits: one occurrence of every unambiguous text, earliest split first. */
module CleanSplits {
  import opened Targets
  import opened Sequences
  import opened Groups

  /** `sentence_key`: what two token sequences share when they count as one text. */
  type Norm = seq<string> -> string

  function KeyOf(norm: Norm): Sentence -> string {
    (x: Sentence) => norm(x.tokens)
  }

  function Same(xs: seq<Sentence>, norm: Norm, k: string): seq<Sentence> {
    Occurrences(xs, KeyOf(norm), k)
  }

  function KeysOf(xs: seq<Sentence>, norm: Norm): seq<string> {
    Keys(xs, KeyOf(norm))
  }

  function Priority(s: Split): nat {
    match s case Train => 0 case Valid => 1 case Test => 2
  }

  /** The earliest split a group occurs in. */
  function EarliestSplit(occ: seq<Sentence>): (s: Split)
    requires occ != []
    ensures exists x :: x in occ && x.split == s
    ensures forall x :: x in occ ==> Priority(s) <= Priority(x.split)
  {
    var z := occ[|occ| - 1];
    if |occ| == 1 then assert z in occ; z.split
    else
      var s := EarliestSplit(occ[..|occ| - 1]);
      assert occ == occ[..|occ| - 1] + [z];
      if Priority(z.split) < Priority(s) then z.split else s
  }

  /** The first occurrence from the split. */
  function FirstFrom(occ: seq<Sentence>, s: Split): (x: Sentence)
    requires exists x :: x in occ && x.split == s
    ensures x in occ && x.split == s
  {
    if occ[0].split == s then occ[0]
    else
      assert occ == [occ[0]] + occ[1..];
      FirstFrom(occ[1..], s)
  }

  /** What a group contributes to split s. */
  function Chosen(occ: seq<Sentence>, s: Split): seq<Sentence>
    requires occ != []
  {
    if Ambiguous(occ) || EarliestSplit(occ) != s then [] else [FirstFrom(occ, EarliestSplit(occ))]
  }

  predicate AllOccur(all: seq<Sentence>, norm: Norm, ks: seq<string>) {
    forall i :: 0 <= i < |ks| ==> Same(all, norm, ks[i]) != []
  }

  function ChosenFrom(all: seq<Sentence>, norm: Norm, ks: seq<string>, s: Split): seq<Sentence>
    requires AllOccur(all, norm, ks)
  {
    if ks == [] then []
    else ChosenFrom(all, norm, ks[..|ks| - 1], s) + Chosen(Same(all, norm, ks[|ks| - 1]), s)
  }

  /** Conflicting and duplicate occurrences of the groups. */
  function Conflicting(all: seq<Sentence>, norm: Norm, ks: seq<string>): nat {
    if ks == [] then 0
    else
      var occ := Same(all, norm, ks[|ks| - 1]);
      Conflicting(all, norm, ks[..|ks| - 1]) + if Ambiguous(occ) then |occ| else 0
  }

  function Duplicates(all: seq<Sentence>, norm: Norm, ks: seq<string>): nat
    requires AllOccur(all, norm, ks)
  {
    if ks == [] then 0
    else
      var occ := Same(all, norm, ks[|ks| - 1]);
      Duplicates(all, norm, ks[..|ks| - 1]) + if Ambiguous(occ) then 0 else |occ| - 1
  }

  // ---------------------------------------------------------------- the integrity audit

  function TextsOf(xs: seq<Sentence>, norm: Norm): set<string> {
    set i | 0 <= i < |xs| :: norm(xs[i].tokens)
  }

  predicate ConflictFree(xs: seq<Sentence>, norm: Norm) {
    forall k :: k in TextsOf(xs, norm) ==> !Ambiguous(Same(xs, norm, k))
  }

  /** The three gates of `audit_split_integrity`. */
  datatype Gates = Gates(overlapZero: bool, conflictsZero: bool, malformedZero: bool) {
    predicate AllPassed() {
      overlapZero && conflictsZero && malformedZero
    }
  }

  function Audit(p: Parsed, norm: Norm, malformed: nat): Gates {
    var train, valid, test := TextsOf(p.train, norm), TextsOf(p.valid, norm), TextsOf(p.test, norm);
    Gates(|train * valid| + |train * test| + |valid * test| == 0,
          ConflictFree(p.train, norm) && ConflictFree(p.valid, norm) && ConflictFree(p.test, norm),
          malformed == 0)
  }

  // ---------------------------------------------------------------- the program

  datatype Outcome = RuntimeError | Clean(splits: Parsed, conflicting: nat, duplicates: nat)

  method BuildCleanSplits(source: Parsed, norm: Norm) returns (r: Outcome)
    requires WellFormed(source)
    ensures r.Clean? && r.splits == CleanOf(source, norm)
    ensures |source.All()| == |r.splits.All()| + r.conflicting + r.duplicates
  {
    hide Keys, Occurrences, Same, Chosen, Ambiguous, TextsOf, ConflictFree;
    var all := source.All();
    var keys, groups := GroupBy(all, KeyOf(norm));
    var clean, conflicting, duplicates := Parsed([], [], []), 0, 0;
    KeysAllOccur(all, norm);
    assert keys[..0] == [];
    for n := 0 to |keys|
      invariant clean == ChosenSplits(all, norm, keys[..n])
      invariant conflicting == Conflicting(all, norm, keys[..n]) && duplicates == Duplicates(all, norm, keys[..n])
    {
      assert keys[..n + 1][..n] == keys[..n] && keys[..n + 1][n] == keys[n];
      var occ := Listed(groups, keys[n]);
      assert occ == Same(all, norm, keys[n]) by { SameListed(all, norm, groups, keys[n]); }
      ChosenSplit(occ);
      if Ambiguous(occ) {
        conflicting := conflicting + |occ|;
      } else {
        var target := EarliestSplit(occ);
        var selected := FirstFrom(occ, target);
        clean := match target
          case Train => clean.(train := clean.train + [selected])
          case Valid => clean.(valid := clean.valid + [selected])
          case Test => clean.(test := clean.test + [selected]);
        duplicates := duplicates + |occ| - 1;
      }
    }
    assert keys[..|keys|] == keys;
    ChosenIsClean(source, norm);
    NothingLost(source, norm);
    AuditPasses(source, norm);
    r := if Audit(clean, norm, 0).AllPassed() then Clean(clean, conflicting, duplicates) else RuntimeError;
  }

  lemma SameListed(all: seq<Sentence>, norm: Norm, groups: map<string, seq<Sentence>>, k: string)
    requires Listed(groups, k) == Occurrences(all, KeyOf(norm), k)
    ensures Listed(groups, k) == Same(all, norm, k)
  {
  }

  lemma ChosenSplit(occ: seq<Sentence>)
    requires occ != []
    ensures Ambiguous(occ) ==> forall s :: Chosen(occ, s) == []
    ensures !Ambiguous(occ) ==> forall s :: Chosen(occ, s) == if s == EarliestSplit(occ) then [FirstFrom(occ, s)]
            else []
  {
  }

  function ChosenSplits(all: seq<Sentence>, norm: Norm, ks: seq<string>): Parsed
    requires AllOccur(all, norm, ks)
  {
    Parsed(ChosenFrom(all, norm, ks, Train), ChosenFrom(all, norm, ks, Valid), ChosenFrom(all, norm, ks, Test))
  }

  lemma KeysAllOccur(all: seq<Sentence>, norm: Norm)
    ensures AllOccur(all, norm, KeysOf(all, norm))
  {
    forall i | 0 <= i < |KeysOf(all, norm)|
      ensures Same(all, norm, KeysOf(all, norm)[i]) != []
    {
      KeysOccur(all, KeyOf(norm), KeysOf(all, norm)[i]);
    }
  }

  // ---------------------------------------------------------------- what is kept

  /** Position i is the first occurrence of an unambiguous text. */
  predicate Kept(all: seq<Sentence>, norm: Norm, i: nat)
    requires i < |all|
  {
    norm(all[i].tokens) !in KeysOf(all[..i], norm) && !Ambiguous(Same(all, norm, norm(all[i].tokens)))
  }

  /** The kept sentences of split s below position n, in source order. */
  function KeptBelow(all: seq<Sentence>, norm: Norm, n: nat, s: Split): seq<Sentence>
    requires n <= |all|
  {
    if n == 0 then []
    else KeptBelow(all, norm, n - 1, s) + if Kept(all, norm, n - 1) && all[n - 1].split == s then [all[n - 1]] else []
  }

  function CleanOf(p: Parsed, norm: Norm): Parsed {
    var all := p.All();
    Parsed(KeptBelow(all, norm, |all|, Train), KeptBelow(all, norm, |all|, Valid), KeptBelow(all, norm, |all|, Test))
  }

  predicate InPriorityOrder(xs: seq<Sentence>) {
    forall i, j :: 0 <= i < j < |xs| ==> Priority(xs[i].split) <= Priority(xs[j].split)
  }

  lemma SourceInOrder(p: Parsed)
    requires WellFormed(p)
    ensures InPriorityOrder(p.All())
  {
    assert WellFormedSplit(p.At(Train), Train) && WellFormedSplit(p.At(Valid), Valid)
           && WellFormedSplit(p.At(Test), Test);
    var all := p.All();
    forall i | 0 <= i < |all|
      ensures all[i].split == if i < |p.train| then Train else if i < |p.train| + |p.valid| then Valid else Test
    {
    }
  }

  lemma {:induction false} SameInOrder(xs: seq<Sentence>, norm: Norm, k: string)
    requires InPriorityOrder(xs)
    ensures InPriorityOrder(Same(xs, norm, k))
  {
    if xs != [] {
      var front, z := xs[..|xs| - 1], xs[|xs| - 1];
      SameInOrder(front, norm, k);
      var occ := Same(front, norm, k);
      forall i | 0 <= i < |occ|
        ensures Priority(occ[i].split) <= Priority(z.split)
      {
        assert occ[i] in front;
      }
    }
  }

  /** In an ordered group the first occurrence is the chosen one. */
  lemma FirstIsChosen(occ: seq<Sentence>)
    requires occ != [] && InPriorityOrder(occ)
    ensures EarliestSplit(occ) == occ[0].split && FirstFrom(occ, EarliestSplit(occ)) == occ[0]
    ensures forall s :: Chosen(occ, s) == if !Ambiguous(occ) && occ[0].split == s then [occ[0]] else []
  {
    var s := EarliestSplit(occ);
    var x :| x in occ && x.split == s;
    var i :| 0 <= i < |occ| && occ[i] == x;
    assert occ[0] in occ;
  }

  lemma {:induction false} FirstOccurrence(xs: seq<Sentence>, norm: Norm, m: nat, n: nat)
    requires m < n <= |xs| && norm(xs[m].tokens) !in KeysOf(xs[..m], norm)
    ensures var occ := Same(xs[..n], norm, norm(xs[m].tokens)); occ != [] && occ[0] == xs[m]
  {
    hide Occurrences, Keys;
    var k := norm(xs[m].tokens);
    NextSentence(xs, KeyOf(norm), n - 1);
    if n == m + 1 {
      KeysOccur(xs[..m], KeyOf(norm), k);
    } else {
      FirstOccurrence(xs, norm, m, n - 1);
    }
  }

  lemma AllOccurPrefix(all: seq<Sentence>, norm: Norm, n: nat)
    requires n <= |all|
    ensures AllOccur(all, norm, KeysOf(all[..n], norm))
  {
    var ks := KeysOf(all[..n], norm);
    forall i | 0 <= i < |ks|
      ensures Same(all, norm, ks[i]) != []
    {
      KeysOccur(all[..n], KeyOf(norm), ks[i]);
      var x := Same(all[..n], norm, ks[i])[0];
      assert x in Same(all[..n], norm, ks[i]) && x in all;
      assert x in Same(all, norm, ks[i]);
    }
  }

  lemma ChosenStep(all: seq<Sentence>, norm: Norm, m: nat, s: Split)
    requires m < |all| && InPriorityOrder(all) && norm(all[m].tokens) !in KeysOf(all[..m], norm)
    ensures var occ := Same(all, norm, norm(all[m].tokens));
            occ != [] && Chosen(occ, s) == if Kept(all, norm, m) && all[m].split == s then [all[m]] else []
  {
    hide Same, Ambiguous, KeysOf, Chosen, InPriorityOrder;
    FirstOccurrence(all, norm, m, |all|);
    assert all[..|all|] == all;
    SameInOrder(all, norm, norm(all[m].tokens));
    FirstIsChosen(Same(all, norm, norm(all[m].tokens)));
  }

  lemma ChosenLast(all: seq<Sentence>, norm: Norm, ks: seq<string>, k: string, s: Split)
    requires AllOccur(all, norm, ks + [k]) && AllOccur(all, norm, ks) && Same(all, norm, k) != []
    ensures ChosenFrom(all, norm, ks + [k], s) == ChosenFrom(all, norm, ks, s) + Chosen(Same(all, norm, k), s)
  {
    hide Same, Chosen;
    assert (ks + [k])[..|ks|] == ks;
  }

  lemma {:induction false} ChosenIsKept(all: seq<Sentence>, norm: Norm, n: nat, s: Split)
    requires n <= |all| && InPriorityOrder(all) && AllOccur(all, norm, KeysOf(all[..n], norm))
    ensures ChosenFrom(all, norm, KeysOf(all[..n], norm), s) == KeptBelow(all, norm, n, s)
  {
    hide Same, Ambiguous, Keys, Chosen, InPriorityOrder, AllOccur;
    if n == 0 {
      NothingChosen(all, norm, s);
      assert all[..0] == [];
    } else {
      AllOccurPrefix(all, norm, n - 1);
      ChosenIsKept(all, norm, n - 1, s);
      NextSentence(all, KeyOf(norm), n - 1);
      var k := norm(all[n - 1].tokens);
      if k !in KeysOf(all[..n - 1], norm) {
        ChosenStep(all, norm, n - 1, s);
        ChosenLast(all, norm, KeysOf(all[..n - 1], norm), k, s);
      }
    }
  }

  lemma NothingChosen(all: seq<Sentence>, norm: Norm, s: Split)
    ensures KeysOf([], norm) == [] && AllOccur(all, norm, []) && ChosenFrom(all, norm, [], s) == []
  {
  }

  /** Main result. The group loop keeps, in source order, the first occurrence of every unambiguous text. */
  lemma ChosenIsClean(p: Parsed, norm: Norm)
    requires WellFormed(p)
    ensures AllOccur(p.All(), norm, KeysOf(p.All(), norm))
    ensures ChosenSplits(p.All(), norm, KeysOf(p.All(), norm)) == CleanOf(p, norm)
  {
    hide Keys, WellFormed, Kept, Chosen;
    var all := p.All();
    KeysAllOccur(all, norm);
    SourceInOrder(p);
    assert all[..|all|] == all;
    ChosenIsKept(all, norm, |all|, Train);
    ChosenIsKept(all, norm, |all|, Valid);
    ChosenIsKept(all, norm, |all|, Test);
  }

  // ---------------------------------------------------------------- gates and conservation

  lemma {:induction false} KeptMember(all: seq<Sentence>, norm: Norm, n: nat, s: Split, x: Sentence) returns (i: nat)
    requires n <= |all| && x in KeptBelow(all, norm, n, s)
    ensures i < n && all[i] == x && Kept(all, norm, i) && x.split == s
  {
    if Kept(all, norm, n - 1) && all[n - 1].split == s && x == all[n - 1] {
      i := n - 1;
    } else {
      i := KeptMember(all, norm, n - 1, s, x);
    }
  }

  lemma KeyBefore(all: seq<Sentence>, norm: Norm, i: nat, j: nat)
    requires i < j <= |all|
    ensures norm(all[i].tokens) in KeysOf(all[..j], norm)
  {
    assert all[..j][i] == all[i];
  }

  /** Two kept positions of one text are one position. */
  lemma KeptOnce(all: seq<Sentence>, norm: Norm, i: nat, j: nat)
    requires i < |all| && j < |all| && Kept(all, norm, i) && Kept(all, norm, j)
             && norm(all[i].tokens) == norm(all[j].tokens)
    ensures i == j
  {
    hide KeysOf;
    if i < j {
      KeyBefore(all, norm, i, j);
    } else if j < i {
      KeyBefore(all, norm, j, i);
    }
  }

  lemma SameKept(all: seq<Sentence>, norm: Norm, s: Split, t: Split, x: Sentence, y: Sentence)
    requires x in KeptBelow(all, norm, |all|, s) && y in KeptBelow(all, norm, |all|, t)
             && norm(x.tokens) == norm(y.tokens)
    ensures x == y && s == t
  {
    var i := KeptMember(all, norm, |all|, s, x);
    var j := KeptMember(all, norm, |all|, t, y);
    KeptOnce(all, norm, i, j);
  }

  lemma TextsApart(all: seq<Sentence>, norm: Norm, s: Split, t: Split)
    requires s != t
    ensures TextsOf(KeptBelow(all, norm, |all|, s), norm) * TextsOf(KeptBelow(all, norm, |all|, t), norm) == {}
  {
    hide KeptBelow;
    var a, b := KeptBelow(all, norm, |all|, s), KeptBelow(all, norm, |all|, t);
    forall k | k in TextsOf(a, norm) && k in TextsOf(b, norm)
      ensures false
    {
      var i :| 0 <= i < |a| && norm(a[i].tokens) == k;
      var j :| 0 <= j < |b| && norm(b[j].tokens) == k;
      SameKept(all, norm, s, t, a[i], b[j]);
    }
  }

  lemma SplitConflictFree(all: seq<Sentence>, norm: Norm, s: Split)
    ensures ConflictFree(KeptBelow(all, norm, |all|, s), norm)
  {
    hide KeptBelow;
    var xs := KeptBelow(all, norm, |all|, s);
    forall k | k in TextsOf(xs, norm)
      ensures !Ambiguous(Same(xs, norm, k))
    {
      var occ := Same(xs, norm, k);
      forall i | 0 <= i < |occ|
        ensures occ[i] == occ[0]
      {
        assert occ[i] in occ && occ[0] in occ;
        SameKept(all, norm, s, s, occ[i], occ[0]);
      }
    }
  }

  /** Main result. The output passes every gate of the integrity audit on every input, so the error
      cannot occur. */
  lemma AuditPasses(p: Parsed, norm: Norm)
    ensures Audit(CleanOf(p, norm), norm, 0).AllPassed()
  {
    hide KeptBelow, TextsOf, ConflictFree;
    var all := p.All();
    TextsApart(all, norm, Train, Valid);
    TextsApart(all, norm, Train, Test);
    TextsApart(all, norm, Valid, Test);
    SplitConflictFree(all, norm, Train);
    SplitConflictFree(all, norm, Valid);
    SplitConflictFree(all, norm, Test);
  }

  /** The audit passes exactly when no two sentences of different splits share a text, none of one split with
      one text differ in their labels, and nothing was malformed. */
  lemma AuditMeans(q: Parsed, norm: Norm, malformed: nat)
    ensures Audit(q, norm, malformed).AllPassed() <==>
              && TextsDiffer(q.train, q.valid, norm) && TextsDiffer(q.train, q.test, norm)
              && TextsDiffer(q.valid, q.test, norm)
              && LabelsAgree(q.train, norm) && LabelsAgree(q.valid, norm) && LabelsAgree(q.test, norm)
              && malformed == 0
  {
    hide TextsOf, ConflictFree, TextsDiffer, LabelsAgree;
    TextsDifferIff(q.train, q.valid, norm);
    TextsDifferIff(q.train, q.test, norm);
    TextsDifferIff(q.valid, q.test, norm);
    LabelsAgreeIff(q.train, norm);
    LabelsAgreeIff(q.valid, norm);
    LabelsAgreeIff(q.test, norm);
  }

  predicate TextsDiffer(a: seq<Sentence>, b: seq<Sentence>, norm: Norm) {
    forall x, y :: x in a && y in b ==> norm(x.tokens) != norm(y.tokens)
  }

  predicate LabelsAgree(xs: seq<Sentence>, norm: Norm) {
    forall x, y :: x in xs && y in xs && norm(x.tokens) == norm(y.tokens) ==> x.labels == y.labels
  }

  lemma TextsDifferIff(a: seq<Sentence>, b: seq<Sentence>, norm: Norm)
    ensures |TextsOf(a, norm) * TextsOf(b, norm)| == 0 <==> TextsDiffer(a, b, norm)
  {
    var both := TextsOf(a, norm) * TextsOf(b, norm);
    if both == {} {
      forall x, y | x in a && y in b
        ensures norm(x.tokens) != norm(y.tokens)
      {
        var i :| 0 <= i < |a| && a[i] == x;
        var j :| 0 <= j < |b| && b[j] == y;
        assert norm(a[i].tokens) in TextsOf(a, norm) && norm(b[j].tokens) in TextsOf(b, norm);
        assert norm(x.tokens) !in both;
      }
    } else {
      var k :| k in both;
      var i :| 0 <= i < |a| && norm(a[i].tokens) == k;
      var j :| 0 <= j < |b| && norm(b[j].tokens) == k;
      assert a[i] in a && b[j] in b;
    }
  }

  lemma LabelsAgreeIff(xs: seq<Sentence>, norm: Norm)
    ensures ConflictFree(xs, norm) <==> LabelsAgree(xs, norm)
  {
    hide Same;
    if ConflictFree(xs, norm) {
      forall x, y | x in xs && y in xs && norm(x.tokens) == norm(y.tokens)
        ensures x.labels == y.labels
      {
        var i :| 0 <= i < |xs| && xs[i] == x;
        assert norm(xs[i].tokens) in TextsOf(xs, norm);
        var occ := Same(xs, norm, norm(x.tokens));
        SameAre(xs, norm, norm(x.tokens));
        var m :| 0 <= m < |occ| && occ[m] == x;
        var n :| 0 <= n < |occ| && occ[n] == y;
      }
    } else {
      var k :| k in TextsOf(xs, norm) && Ambiguous(Same(xs, norm, k));
      var occ := Same(xs, norm, k);
      SameAre(xs, norm, k);
      var i :| 0 <= i < |occ| && occ[i].labels != occ[0].labels;
      assert occ[i] in occ && occ[0] in occ;
    }
  }

  lemma SameAre(xs: seq<Sentence>, norm: Norm, k: string)
    ensures forall x :: x in Same(xs, norm, k) <==> x in xs && norm(x.tokens) == k
  {
  }

  lemma {:induction false} GroupsAccounted(all: seq<Sentence>, norm: Norm, ks: seq<string>)
    requires AllOccur(all, norm, ks)
    ensures Sizes(all, KeyOf(norm), ks)
            == Conflicting(all, norm, ks) + Duplicates(all, norm, ks) + |ChosenFrom(all, norm, ks, Train)|
               + |ChosenFrom(all, norm, ks, Valid)| + |ChosenFrom(all, norm, ks, Test)|
  {
    hide Occurrences, Ambiguous;
    if ks != [] {
      GroupsAccounted(all, norm, ks[..|ks| - 1]);
      OneChosen(Same(all, norm, ks[|ks| - 1]));
    }
  }

  lemma OneChosen(occ: seq<Sentence>)
    requires occ != []
    ensures |Chosen(occ, Train)| + |Chosen(occ, Valid)| + |Chosen(occ, Test)| == if Ambiguous(occ) then 0 else 1
  {
    hide Ambiguous;
    match EarliestSplit(occ) case Train => case Valid => case Test =>
  }

  /** Main result. Every occurrence is retained, a duplicate or conflicting. */
  lemma NothingLost(p: Parsed, norm: Norm)
    requires WellFormed(p)
    ensures AllOccur(p.All(), norm, KeysOf(p.All(), norm))
    ensures |p.All()| == |CleanOf(p, norm).All()| + Conflicting(p.All(), norm, KeysOf(p.All(), norm))
                         + Duplicates(p.All(), norm, KeysOf(p.All(), norm))
  {
    hide WellFormed, Keys, Same, KeptBelow, ChosenFrom;
    ChosenIsClean(p, norm);
    SizesAddUp(p.All(), KeyOf(norm));
    GroupsAccounted(p.All(), norm, KeysOf(p.All(), norm));
  }
}
