/** Entity and token scores over pairs of label sequences, in exact rationals. */
module Metrics {
  import opened Sequences
  import opened Bio

  datatype Tally = Tally(tp: nat, fp: nat, fn: nat) {
    function Plus(o: Tally): Tally {
      Tally(tp + o.tp, fp + o.fp, fn + o.fn)
    }

    function Precision(): real {
      if tp + fp == 0 then 0.0 else tp as real / (tp + fp) as real
    }

    function Recall(): real {
      if tp + fn == 0 then 0.0 else tp as real / (tp + fn) as real
    }

    function F1(): real {
      if Precision() + Recall() == 0.0 then 0.0 else 2.0 * Precision() * Recall() / (Precision() + Recall())
    }
  }

  function EntitySet(labels: seq<string>): set<Span> {
    set s | s in Spans(MetricTags(labels))
  }

  function SentenceTally(t: set<Span>, p: set<Span>): Tally {
    Tally(|t * p|, |p - t|, |t - p|)
  }

  /** The pairs `zip` yields. */
  function Pairs(truth: seq<seq<string>>, pred: seq<seq<string>>): nat {
    if |truth| < |pred| then |truth| else |pred|
  }

  /** Counts over the first n sentences. */
  function Micro(truth: seq<seq<string>>, pred: seq<seq<string>>, n: nat): Tally
    requires n <= Pairs(truth, pred)
  {
    if n == 0 then Tally(0, 0, 0)
    else Micro(truth, pred, n - 1).Plus(SentenceTally(EntitySet(truth[n - 1]), EntitySet(pred[n - 1])))
  }

  method EntityMicroMetrics(truth: seq<seq<string>>, pred: seq<seq<string>>)
    returns (counts: Tally, precision: real, recall: real, f1: real)
    ensures counts == Micro(truth, pred, Pairs(truth, pred))
    ensures precision == counts.Precision() && recall == counts.Recall() && f1 == counts.F1()
    ensures counts.tp + counts.fp == SumSizes(pred, Pairs(truth, pred))
    ensures counts.tp + counts.fn == SumSizes(truth, Pairs(truth, pred))
    ensures Ratios(counts, precision, recall, f1)
  {
    hide Ratios, SumSizes, EntitySet, Tally.Precision, Tally.Recall, Tally.F1;
    var tp: nat, fp: nat, fn: nat := 0, 0, 0;
    for n := 0 to Pairs(truth, pred)
      invariant Tally(tp, fp, fn) == Micro(truth, pred, n)
    {
      var t := ExtractBioEntities(truth[n]);
      var p := ExtractBioEntities(pred[n]);
      SameSets(truth[n], pred[n], t, p);
      tp, fp, fn := tp + |t * p|, fp + |p - t|, fn + |t - p|;
    }
    counts := Tally(tp, fp, fn);
    RatiosMean(counts);
    precision, recall, f1 := counts.Precision(), counts.Recall(), counts.F1();
    MicroTotals(truth, pred, Pairs(truth, pred));
  }

  /** How many entities the first n sentences have. */
  function SumSizes(sentences: seq<seq<string>>, n: nat): nat
    requires n <= |sentences|
  {
    if n == 0 then 0 else SumSizes(sentences, n - 1) + |EntitySet(sentences[n - 1])|
  }

  /** True and false positives are the predicted entities, true positives and misses the true ones. */
  lemma {:induction false} MicroTotals(truth: seq<seq<string>>, pred: seq<seq<string>>, n: nat)
    requires n <= Pairs(truth, pred)
    ensures Micro(truth, pred, n).tp + Micro(truth, pred, n).fp == SumSizes(pred, n)
    ensures Micro(truth, pred, n).tp + Micro(truth, pred, n).fn == SumSizes(truth, n)
  {
    hide EntitySet, SentenceTally;
    if n > 0 {
      MicroTotals(truth, pred, n - 1);
      SentenceTotals(EntitySet(truth[n - 1]), EntitySet(pred[n - 1]));
    }
  }

  lemma SentenceTotals(t: set<Span>, p: set<Span>)
    ensures SentenceTally(t, p).tp + SentenceTally(t, p).fp == |p|
    ensures SentenceTally(t, p).tp + SentenceTally(t, p).fn == |t|
  {
    assert t == t * p + (t - p) && p == t * p + (p - t);
  }

  /** Precision is the share of true positives among the predicted entities, recall among the true ones, and
      F1 their harmonic mean; each is zero where it has nothing to divide by. */
  predicate Ratios(c: Tally, precision: real, recall: real, f1: real) {
    && precision == (if c.tp + c.fp > 0 then c.tp as real / (c.tp + c.fp) as real else 0.0)
    && recall == (if c.tp + c.fn > 0 then c.tp as real / (c.tp + c.fn) as real else 0.0)
    && (if precision + recall == 0.0 then f1 == 0.0 else f1 * (precision + recall) == 2.0 * precision * recall)
  }

  lemma RatiosMean(c: Tally)
    ensures Ratios(c, c.Precision(), c.Recall(), c.F1())
  {
  }

  // ---------------------------------------------------------------- per type

  function OfType(s: set<Span>, t: string): set<Span> {
    set e | e in s && e.t == t
  }

  function TypeTally(t: set<Span>, p: set<Span>, name: string): Tally {
    Tally(|OfType(t * p, name)|, |OfType(p - t, name)|, |OfType(t - p, name)|)
  }

  /** Counts of one type over the first n sentences. */
  function MicroOf(truth: seq<seq<string>>, pred: seq<seq<string>>, n: nat, name: string): Tally
    requires n <= Pairs(truth, pred)
  {
    if n == 0 then Tally(0, 0, 0)
    else MicroOf(truth, pred, n - 1, name).Plus(TypeTally(EntitySet(truth[n - 1]), EntitySet(pred[n - 1]), name))
  }

  /** A dictionary of buckets with its keys in insertion order. */
  datatype Buckets = Buckets(keys: seq<string>, counts: map<string, Tally>)

  ghost predicate Valid(b: Buckets) {
    Distinct(b.keys) && forall k :: k in b.keys <==> k in b.counts
  }

  function Look(b: Buckets, k: string): Tally {
    if k in b.counts then b.counts[k] else Tally(0, 0, 0)
  }

  function Bumped(b: Buckets, k: string, unit: Tally): (r: Buckets)
    ensures Valid(b) ==> Valid(r)
    ensures forall j :: Look(r, j) == if j == k then Look(b, j).Plus(unit) else Look(b, j)
    ensures k in r.keys && forall j :: j in b.keys ==> j in r.keys
  {
    Buckets(if k in b.keys then b.keys else b.keys + [k], b.counts[k := Look(b, k).Plus(unit)])
  }

  function Times(n: nat, unit: Tally): Tally {
    Tally(n * unit.tp, n * unit.fp, n * unit.fn)
  }

  predicate Unit(unit: Tally) {
    unit == Tally(1, 0, 0) || unit == Tally(0, 1, 0) || unit == Tally(0, 0, 1)
  }

  lemma OfTypeStep(done: set<Span>, e: Span, k: string)
    requires e !in done
    ensures |OfType(done + {e}, k)| == |OfType(done, k)| + if e.t == k then 1 else 0
  {
    assert OfType(done + {e}, k) == if e.t == k then OfType(done, k) + {e} else OfType(done, k);
  }

  lemma TimesStep(base: Tally, n: nat, unit: Tally)
    requires Unit(unit)
    ensures base.Plus(Times(n + 1, unit)) == base.Plus(Times(n, unit)).Plus(unit)
    ensures base.Plus(Times(0, unit)) == base
  {
  }

  /** `for entity_type, _, _ in entities: bucket(entity_type)[field] += 1` */
  method CountEntities(b0: Buckets, entities: set<Span>, unit: Tally) returns (b: Buckets)
    requires Valid(b0) && Unit(unit)
    ensures Valid(b)
    ensures forall k :: Look(b, k) == Look(b0, k).Plus(Times(|OfType(entities, k)|, unit))
    ensures (forall k :: k in b0.keys ==> k in b.keys) && forall e :: e in entities ==> e.t in b.keys
  {
    hide OfType, Look, Times;
    b := b0;
    var rest := entities;
    ghost var done: set<Span> := {};
    forall k
      ensures Look(b, k) == Look(b0, k).Plus(Times(|OfType(done, k)|, unit))
    {
      NoneOfType(k);
      TimesStep(Look(b0, k), 0, unit);
    }
    while rest != {}
      invariant done + rest == entities && done !! rest && Valid(b)
      invariant forall k :: Look(b, k) == Look(b0, k).Plus(Times(|OfType(done, k)|, unit))
      invariant (forall k :: k in b0.keys ==> k in b.keys) && forall e :: e in done ==> e.t in b.keys
      decreases |rest|
    {
      var e :| e in rest;
      ghost var before := b;
      b := Bumped(b, e.t, unit);
      forall k
        ensures Look(b, k) == Look(b0, k).Plus(Times(|OfType(done + {e}, k)|, unit))
      {
        OfTypeStep(done, e, k);
        TimesStep(Look(b0, k), |OfType(done, k)|, unit);
      }
      done, rest := done + {e}, rest - {e};
    }
    assert done == entities;
  }

  lemma NoneOfType(k: string)
    ensures |OfType({}, k)| == 0
  {
    assert OfType({}, k) == {};
  }

  /** Every entity of the first n sentences has a bucket. */
  ghost predicate Bucketed(truth: seq<seq<string>>, pred: seq<seq<string>>, n: nat, keys: seq<string>)
    requires n <= Pairs(truth, pred)
  {
    forall i, e :: 0 <= i < n && (e in EntitySet(truth[i]) || e in EntitySet(pred[i])) ==> e.t in keys
  }

  /** One sentence of the per-type loop. */
  method CountSentence(b0: Buckets, t: set<Span>, p: set<Span>) returns (b: Buckets)
    requires Valid(b0)
    ensures Valid(b) && forall k :: Look(b, k) == Look(b0, k).Plus(TypeTally(t, p, k))
    ensures (forall k :: k in b0.keys ==> k in b.keys) && forall e :: e in t || e in p ==> e.t in b.keys
  {
    hide Look, OfType;
    b := CountEntities(b0, t * p, Tally(1, 0, 0));
    b := CountEntities(b, p - t, Tally(0, 1, 0));
    b := CountEntities(b, t - p, Tally(0, 0, 1));
    forall e | e in t || e in p
      ensures e.t in b.keys
    {
      assert e in t * p || e in p - t || e in t - p;
    }
  }

  /** The counting loops over all sentences. */
  method CountTypes(truth: seq<seq<string>>, pred: seq<seq<string>>) returns (b: Buckets)
    ensures Valid(b) && Bucketed(truth, pred, Pairs(truth, pred), b.keys)
    ensures forall k :: Look(b, k) == MicroOf(truth, pred, Pairs(truth, pred), k)
  {
    hide EntitySet, TypeTally;
    b := Buckets([], map[]);
    for n := 0 to Pairs(truth, pred)
      invariant Valid(b) && Bucketed(truth, pred, n, b.keys)
      invariant forall k :: Look(b, k) == MicroOf(truth, pred, n, k)
    {
      var t := ExtractBioEntities(truth[n]);
      var p := ExtractBioEntities(pred[n]);
      assert t == EntitySet(truth[n]) && p == EntitySet(pred[n]) by { SameSets(truth[n], pred[n], t, p); }
      ghost var before := b;
      b := CountSentence(b, t, p);
      forall k
        ensures Look(b, k) == MicroOf(truth, pred, n + 1, k)
      {
        assert Look(before, k) == MicroOf(truth, pred, n, k);
      }
    }
  }

  /** One entry of the report. */
  datatype Scores = Scores(precision: real, recall: real, f1: real, support: nat, counts: Tally)

  predicate ScoresOf(s: Scores, c: Tally) {
    && s.counts == c && s.support == c.tp + c.fn
    && Ratios(c, s.precision, s.recall, s.f1)
  }

  /** The report has the types that occur, in name order, each with its own scores; a type without an
      entry has no counts. */
  method EntityMetricsByType(truth: seq<seq<string>>, pred: seq<seq<string>>)
    returns (types: seq<string>, metrics: map<string, Scores>)
    ensures Ascending(types, StringLe) && Distinct(types) && forall k :: k in metrics <==> k in types
    ensures Bucketed(truth, pred, Pairs(truth, pred), types)
    ensures forall k :: k in metrics ==> ScoresOf(metrics[k], MicroOf(truth, pred, Pairs(truth, pred), k))
    ensures forall k :: k !in metrics ==> MicroOf(truth, pred, Pairs(truth, pred), k) == Tally(0, 0, 0)
  {
    hide MicroOf, EntitySet, ScoresOf, Ascending, Distinct, Sort, StringLe, Bucketed, Look;
    var b := CountTypes(truth, pred);
    SortedKeys(b);
    types, metrics := Sort(b.keys, StringLe), map[];
    for n := 0 to |types|
      invariant forall k :: k in metrics <==> k in types[..n]
      invariant forall k :: k in metrics ==> k in b.counts && ScoresOf(metrics[k], b.counts[k])
    {
      assert types[n] in types;
      var c := b.counts[types[n]];
      assert types[..n + 1] == types[..n] + [types[n]];
      metrics := metrics[types[n] := Scores(c.Precision(), c.Recall(), c.F1(), c.tp + c.fn, c)];
      ScoresOwn(c);
    }
    assert types[..|types|] == types;
    LooksUp(b);
    SameBuckets(truth, pred, b.keys, types);
  }

  lemma LooksUp(b: Buckets)
    ensures forall k :: Look(b, k) == if k in b.counts then b.counts[k] else Tally(0, 0, 0)
  {
  }

  lemma SameBuckets(truth: seq<seq<string>>, pred: seq<seq<string>>, a: seq<string>, b: seq<string>)
    requires Bucketed(truth, pred, Pairs(truth, pred), a) && forall k :: k in a ==> k in b
    ensures Bucketed(truth, pred, Pairs(truth, pred), b)
  {
  }

  lemma ScoresOwn(c: Tally)
    ensures ScoresOf(Scores(c.Precision(), c.Recall(), c.F1(), c.tp + c.fn, c), c)
  {
    RatiosMean(c);
  }

  lemma SortedKeys(b: Buckets)
    requires Valid(b)
    ensures Ascending(Sort(b.keys, StringLe), StringLe) && Distinct(Sort(b.keys, StringLe))
    ensures forall k :: k in Sort(b.keys, StringLe) <==> k in b.counts
  {
    StringPreorder();
    SortAscends(b.keys, StringLe);
    SortKeepsDistinct(b.keys, StringLe);
    forall k
      ensures k in Sort(b.keys, StringLe) <==> k in b.counts
    {
      SameMembers(b.keys, StringLe, k);
    }
  }

  lemma SameSets(a: seq<string>, b: seq<string>, t: set<Span>, p: set<Span>)
    requires t == (set s | s in Spans(MetricTags(a))) && p == (set s | s in Spans(MetricTags(b)))
    ensures t == EntitySet(a) && p == EntitySet(b)
  {
  }

  /** Sum of the buckets of some types. */
  function SumTypes(truth: seq<seq<string>>, pred: seq<seq<string>>, n: nat, ks: seq<string>): Tally
    requires n <= Pairs(truth, pred)
  {
    if ks == [] then Tally(0, 0, 0)
    else SumTypes(truth, pred, n, ks[..|ks| - 1]).Plus(MicroOf(truth, pred, n, ks[|ks| - 1]))
  }

  function TallyTypes(t: set<Span>, p: set<Span>, ks: seq<string>): Tally {
    if ks == [] then Tally(0, 0, 0) else TallyTypes(t, p, ks[..|ks| - 1]).Plus(TypeTally(t, p, ks[|ks| - 1]))
  }

  function OfTypes(s: set<Span>, ks: seq<string>): set<Span> {
    set e | e in s && e.t in ks
  }

  lemma OneMoreType(s: set<Span>, ks: seq<string>, k: string)
    requires k !in ks
    ensures |OfTypes(s, ks + [k])| == |OfTypes(s, ks)| + |OfType(s, k)|
  {
    assert OfTypes(s, ks + [k]) == OfTypes(s, ks) + OfType(s, k);
    assert OfTypes(s, ks) !! OfType(s, k);
  }

  lemma {:induction false} TallyOfTypes(t: set<Span>, p: set<Span>, ks: seq<string>)
    requires Distinct(ks)
    ensures TallyTypes(t, p, ks) == Tally(|OfTypes(t * p, ks)|, |OfTypes(p - t, ks)|, |OfTypes(t - p, ks)|)
  {
    hide OfType, OfTypes;
    if ks == [] {
      NoTypes(t * p);
      NoTypes(p - t);
      NoTypes(t - p);
    } else {
      var front, k := ks[..|ks| - 1], ks[|ks| - 1];
      assert ks == front + [k];
      TallyOfTypes(t, p, front);
      OneMoreType(t * p, front, k);
      OneMoreType(p - t, front, k);
      OneMoreType(t - p, front, k);
    }
  }

  lemma NoTypes(s: set<Span>)
    ensures |OfTypes(s, [])| == 0
  {
    assert OfTypes(s, []) == {};
  }

  lemma {:induction false} SumStep(truth: seq<seq<string>>, pred: seq<seq<string>>, n: nat, ks: seq<string>)
    requires 0 < n <= Pairs(truth, pred)
    ensures SumTypes(truth, pred, n, ks)
            == SumTypes(truth, pred, n - 1, ks).Plus(TallyTypes(EntitySet(truth[n - 1]), EntitySet(pred[n - 1]), ks))
  {
    hide EntitySet, TypeTally;
    if ks != [] {
      SumStep(truth, pred, n, ks[..|ks| - 1]);
    }
  }

  lemma {:induction false} NothingSummed(truth: seq<seq<string>>, pred: seq<seq<string>>, ks: seq<string>)
    ensures SumTypes(truth, pred, 0, ks) == Tally(0, 0, 0)
  {
    if ks != [] {
      NothingSummed(truth, pred, ks[..|ks| - 1]);
    }
  }

  /** Main result. Over any distinct types that include all that occur, the per-type counts add up to
      the micro counts. */
  lemma {:induction false} TypesAddUp(truth: seq<seq<string>>, pred: seq<seq<string>>, n: nat, ks: seq<string>)
    requires n <= Pairs(truth, pred) && Distinct(ks) && Bucketed(truth, pred, n, ks)
    ensures SumTypes(truth, pred, n, ks) == Micro(truth, pred, n)
  {
    hide EntitySet, TallyTypes;
    if n == 0 {
      NothingSummed(truth, pred, ks);
    } else {
      var t, p := EntitySet(truth[n - 1]), EntitySet(pred[n - 1]);
      TypesAddUp(truth, pred, n - 1, ks);
      SumStep(truth, pred, n, ks);
      TallyOfTypes(t, p, ks);
      assert OfTypes(t * p, ks) == t * p && OfTypes(p - t, ks) == p - t && OfTypes(t - p, ks) == t - p;
    }
  }

  // ---------------------------------------------------------------- scores

  lemma PositiveQuotient(x: real, y: real)
    requires x > 0.0 && y > 0.0
    ensures x / y > 0.0
  {
  }

  lemma HarmonicMean(a: real, b: real, tp: real)
    requires a > 0.0 && b > 0.0 && tp > 0.0
    ensures var p, r := tp / a, tp / b; p + r > 0.0 && 2.0 * p * r / (p + r) == 2.0 * tp / (a + b)
  {
    var p, r, f := tp / a, tp / b, 2.0 * tp / (a + b);
    assert p * a == tp && r * b == tp;
    PositiveQuotient(tp, a);
    PositiveQuotient(tp, b);
    assert f * (a + b) == 2.0 * tp;
    Cross(p, r, a, b, tp, f);
  }

  lemma Cross(p: real, r: real, a: real, b: real, tp: real, f: real)
    requires p > 0.0 && r > 0.0 && a > 0.0 && b > 0.0 && p * a == tp && r * b == tp && f * (a + b) == 2.0 * tp
    ensures 2.0 * p * r / (p + r) == f
  {
    assert (p + r) * tp == p * r * b + r * p * a by {
      assert p * tp == p * (r * b) && r * tp == r * (p * a);
    }
    assert p * r * b + r * p * a == p * r * (a + b);
    assert (p + r) * f * (a + b) == (p + r) * (f * (a + b)) == (p + r) * (2.0 * tp) == 2.0 * p * r * (a + b);
    assert (p + r) * f == 2.0 * p * r by { SameFactor((p + r) * f, 2.0 * p * r, a + b); }
  }

  lemma SameFactor(x: real, y: real, c: real)
    requires c > 0.0 && x * c == y * c
    ensures x == y
  {
    assert (x - y) * c == 0.0;
  }

  /** Main result. In exact rationals F1 is 2tp / (2tp + fp + fn), and zero when there is no true positive. */
  lemma F1Exact(c: Tally)
    ensures c.F1() == if c.tp == 0 then 0.0 else 2.0 * c.tp as real / (2 * c.tp + c.fp + c.fn) as real
  {
    if c.tp > 0 {
      HarmonicMean((c.tp + c.fp) as real, (c.tp + c.fn) as real, c.tp as real);
    }
  }

  lemma QuotientOne(x: real, y: real)
    requires y > 0.0
    ensures x / y == 1.0 <==> x == y
  {
    assert x / y * y == x;
  }

  /** Main result. F1 is one exactly when something is found and nothing is wrong. */
  lemma F1PerfectIff(c: Tally)
    ensures c.F1() == 1.0 <==> c.tp > 0 && c.fp == 0 && c.fn == 0
  {
    F1Exact(c);
    if c.tp > 0 {
      QuotientOne(2.0 * c.tp as real, (2 * c.tp + c.fp + c.fn) as real);
    }
  }

  /** Main result. Swapping truth and prediction swaps false positives with false negatives, hence
      precision with recall, and leaves F1. */
  lemma {:induction false} SwapExchanges(truth: seq<seq<string>>, pred: seq<seq<string>>, n: nat)
    requires n <= Pairs(truth, pred)
    ensures var c, d := Micro(truth, pred, n), Micro(pred, truth, n);
            && d == Tally(c.tp, c.fn, c.fp)
            && d.Precision() == c.Recall() && d.Recall() == c.Precision() && d.F1() == c.F1()
  {
    hide EntitySet;
    if n > 0 {
      SwapExchanges(truth, pred, n - 1);
      var t, p := EntitySet(truth[n - 1]), EntitySet(pred[n - 1]);
      assert t * p == p * t;
    }
    var c := Micro(truth, pred, n);
    F1Exact(c);
    F1Exact(Tally(c.tp, c.fn, c.fp));
  }

  /** Main result. Canonicalising truth and predictions changes no entity count. */
  lemma {:induction false} CanonicalScoresSame(truth: seq<seq<string>>, pred: seq<seq<string>>, a: seq<seq<string>>,
                                               b: seq<seq<string>>, n: nat)
    requires n <= Pairs(truth, pred) && n <= Pairs(a, b)
    requires forall i :: 0 <= i < n ==> AllAccepted(truth[i]) && a[i] == Canonical(truth[i])
    requires forall i :: 0 <= i < n ==> AllAccepted(pred[i]) && b[i] == Canonical(pred[i])
    ensures Micro(a, b, n) == Micro(truth, pred, n)
  {
    hide EntitySet;
    if n > 0 {
      CanonicalScoresSame(truth, pred, a, b, n - 1);
      SameEntitySet(truth[n - 1]);
      SameEntitySet(pred[n - 1]);
    }
  }

  lemma SameEntitySet(labels: seq<string>)
    requires AllAccepted(labels)
    ensures EntitySet(Canonical(labels)) == EntitySet(labels)
  {
    hide Spans;
    CanonicalAccepted(labels);
    DecodersAgree(labels);
    DecodersAgree(Canonical(labels));
    CanonicalKeepsEntities(labels);
  }

  // ---------------------------------------------------------------- tokens

  datatype TokenTally = TokenTally(tp: nat, fp: nat, fn: nat, support: nat, predictedPositive: nat, evaluated: nat)

  datatype TokenOutcome = LengthMismatch | Scored(counts: TokenTally)

  function Flag(b: bool): nat {
    if b then 1 else 0
  }

  /** One token: a right label in scope is a true positive, a wrong one counts on each side in scope. */
  function TokenStep(c: TokenTally, t: string, p: string, excluded: set<string>): TokenTally {
    var inT, inP := t !in excluded, p !in excluded;
    TokenTally(c.tp + Flag(t == p && inT), c.fp + Flag(t != p && inP), c.fn + Flag(t != p && inT),
               c.support + Flag(inT), c.predictedPositive + Flag(inP), c.evaluated + 1)
  }

  /** Counts of the first n tokens of a sentence, from c on. */
  function TokenRun(c: TokenTally, t: seq<string>, p: seq<string>, excluded: set<string>, n: nat): TokenTally
    requires n <= |t| == |p|
  {
    if n == 0 then c else TokenStep(TokenRun(c, t, p, excluded, n - 1), t[n - 1], p[n - 1], excluded)
  }

  predicate SameLengths(truth: seq<seq<string>>, pred: seq<seq<string>>, n: nat)
    requires n <= Pairs(truth, pred)
  {
    forall i :: 0 <= i < n ==> |truth[i]| == |pred[i]|
  }

  function TokenCounts(truth: seq<seq<string>>, pred: seq<seq<string>>, excluded: set<string>, n: nat): TokenTally
    requires n <= Pairs(truth, pred) && SameLengths(truth, pred, n)
  {
    if n == 0 then TokenTally(0, 0, 0, 0, 0, 0)
    else TokenRun(TokenCounts(truth, pred, excluded, n - 1), truth[n - 1], pred[n - 1], excluded, |truth[n - 1]|)
  }

  method TokenMicroMetrics(truth: seq<seq<string>>, pred: seq<seq<string>>, excluded: set<string>)
    returns (r: TokenOutcome)
    ensures r.LengthMismatch? <==> !SameLengths(truth, pred, Pairs(truth, pred))
    ensures r.Scored? ==> r.counts == TokenCounts(truth, pred, excluded, Pairs(truth, pred))
  {
    var c := TokenTally(0, 0, 0, 0, 0, 0);
    for n := 0 to Pairs(truth, pred)
      invariant SameLengths(truth, pred, n) && c == TokenCounts(truth, pred, excluded, n)
    {
      if |truth[n]| != |pred[n]| {
        return LengthMismatch;
      }
      ghost var before := c;
      for k := 0 to |truth[n]|
        invariant c == TokenRun(before, truth[n], pred[n], excluded, k)
      {
        var t, p := truth[n][k], pred[n][k];
        var inT, inP := t !in excluded, p !in excluded;
        c := c.(evaluated := c.evaluated + 1, support := c.support + Flag(inT),
                predictedPositive := c.predictedPositive + Flag(inP));
        if t == p && inT {
          c := c.(tp := c.tp + 1);
        } else if t != p {
          c := c.(fp := c.fp + Flag(inP), fn := c.fn + Flag(inT));
        }
      }
    }
    r := Scored(c);
  }

  predicate Balanced(c: TokenTally) {
    c.tp + c.fn == c.support && c.tp + c.fp == c.predictedPositive && c.support <= c.evaluated
  }

  lemma {:induction false} RunBalanced(c: TokenTally, t: seq<string>, p: seq<string>, excluded: set<string>, n: nat)
    requires n <= |t| == |p| && Balanced(c)
    ensures Balanced(TokenRun(c, t, p, excluded, n)) && TokenRun(c, t, p, excluded, n).evaluated == c.evaluated + n
  {
    if n > 0 {
      RunBalanced(c, t, p, excluded, n - 1);
    }
  }

  function TokensIn(s: seq<seq<string>>, n: nat): nat
    requires n <= |s|
  {
    if n == 0 then 0 else TokensIn(s, n - 1) + |s[n - 1]|
  }

  /** Main result. For any excluded labels true positives and false negatives are the support, true and
      false positives the predicted positives, and every token is evaluated once. */
  lemma {:induction false} TokenCountsBalance(truth: seq<seq<string>>, pred: seq<seq<string>>, excluded: set<string>,
                                              n: nat)
    requires n <= Pairs(truth, pred) && SameLengths(truth, pred, n)
    ensures var c := TokenCounts(truth, pred, excluded, n);
            Balanced(c) && c.evaluated == TokensIn(truth, n)
  {
    if n > 0 {
      TokenCountsBalance(truth, pred, excluded, n - 1);
      RunBalanced(TokenCounts(truth, pred, excluded, n - 1), truth[n - 1], pred[n - 1], excluded, |truth[n - 1]|);
    }
  }
}
