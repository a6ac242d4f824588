/** The meaning of BIO label sequences: two decoders, the transition check and the canonicaliser. */
module Bio {
  import opened Sequences
  import opened RawItems

  /** What a label does to the entity under construction. */
  datatype Tag = Out | Open(t: string) | Cont(t: string)

  datatype Span = Span(t: string, first: nat, last: nat)

  // ---------------------------------------------------------------- reading labels

  /** Index of the first dash, or the length. */
  function Dash(l: string): (i: nat)
    ensures i <= |l| && (i < |l| ==> l[i] == '-') && forall j :: 0 <= j < i ==> l[j] != '-'
  {
    if l == "" || l[0] == '-' then 0
    else
      assert forall j :: 0 <= j < |l[1..]| ==> l[1..][j] == l[j + 1];
      1 + Dash(l[1..])
  }

  predicate HasDash(l: string) {
    Dash(l) < |l|
  }

  /** `extract_bio_entities`: any label means something. */
  function MetricTag(l: string): Tag {
    if l == "O" || l == "" then Out
    else if !HasDash(l) then Open(l)
    else if l[..Dash(l)] == "I" then Cont(l[Dash(l) + 1..])
    else Open(l[Dash(l) + 1..])
  }

  /** `entity_spans`: every prefix but "B" continues; a label needs a dash to be split. */
  function SpanTag(l: string): Tag
    requires l == "O" || HasDash(l)
  {
    if l == "O" then Out
    else if l[..Dash(l)] == "B" then Open(l[Dash(l) + 1..])
    else Cont(l[Dash(l) + 1..])
  }

  /** The label pattern of the parser: "O", or "B-" or "I-" and at least one character, no newline. */
  predicate Accepted(l: string) {
    l == "O" || (|l| >= 3 && (l[0] == 'B' || l[0] == 'I') && l[1] == '-' && '\n' !in l[2..])
  }

  predicate AllAccepted(labels: seq<string>) {
    forall i :: 0 <= i < |labels| ==> Accepted(labels[i])
  }

  predicate Splittable(labels: seq<string>) {
    forall i :: 0 <= i < |labels| ==> labels[i] == "O" || HasDash(labels[i])
  }

  function MetricTags(labels: seq<string>): (tags: seq<Tag>)
    ensures |tags| == |labels| && forall i :: 0 <= i < |labels| ==> tags[i] == MetricTag(labels[i])
  {
    seq(|labels|, i requires 0 <= i < |labels| => MetricTag(labels[i]))
  }

  function SpanTags(labels: seq<string>): (tags: seq<Tag>)
    requires Splittable(labels)
    ensures |tags| == |labels| && forall i :: 0 <= i < |labels| ==> tags[i] == SpanTag(labels[i])
  {
    seq(|labels|, i requires 0 <= i < |labels| => SpanTag(labels[i]))
  }

  // ---------------------------------------------------------------- entities of a tag sequence

  /** Position i begins an entity: it opens one, or continues a type the position before does not have. */
  predicate Starts(tags: seq<Tag>, i: nat)
    requires i < |tags|
  {
    match tags[i]
    case Out => false
    case Open(_) => true
    case Cont(t) => i == 0 || tags[i - 1].Out? || tags[i - 1].t != t
  }

  /** The reference meaning: a maximal stretch of one type. */
  predicate IsEntity(tags: seq<Tag>, s: Span) {
    && s.first <= s.last < |tags|
    && Starts(tags, s.first) && tags[s.first].t == s.t
    && (forall i :: s.first < i <= s.last ==> tags[i] == Cont(s.t))
    && (s.last + 1 < |tags| ==> tags[s.last + 1] != Cont(s.t))
  }

  function StartOf(tags: seq<Tag>, i: nat): (a: nat)
    requires i < |tags| && !tags[i].Out?
    ensures a <= i && Starts(tags, a) && tags[a].t == tags[i].t
    ensures forall j :: a < j <= i ==> tags[j] == Cont(tags[i].t)
  {
    if Starts(tags, i) then i else StartOf(tags, i - 1)
  }

  /** The entity under construction ends before position i (which may be the end of the sequence). */
  predicate EndsBefore(tags: seq<Tag>, i: nat)
    requires i <= |tags|
  {
    i > 0 && !tags[i - 1].Out? && (i == |tags| || tags[i].Out? || Starts(tags, i))
  }

  /** Spans closed when positions below i have been looked at. */
  function Closed(tags: seq<Tag>, i: nat): seq<Span>
    requires i <= |tags| + 1
  {
    if i == 0 then []
    else Closed(tags, i - 1) +
         (if EndsBefore(tags, i - 1) then [Span(tags[i - 2].t, StartOf(tags, i - 2), i - 2)] else [])
  }

  function Spans(tags: seq<Tag>): seq<Span> {
    Closed(tags, |tags| + 1)
  }

  /** Spans in order, apart from each other and inside n positions. */
  predicate Ordered(spans: seq<Span>, n: nat) {
    && (forall k :: 0 <= k < |spans| ==> spans[k].first <= spans[k].last < n)
    && (forall j, k :: 0 <= j < k < |spans| ==> spans[j].last < spans[k].first)
  }

  lemma {:induction false} ClosedMeaning(tags: seq<Tag>, i: nat)
    requires i <= |tags| + 1
    ensures forall s :: s in Closed(tags, i) <==> IsEntity(tags, s) && s.last + 1 < i
    ensures Ordered(Closed(tags, i), if i == 0 then 0 else i - 1)
  {
    hide IsEntity, EndsBefore, StartOf;
    if i > 0 {
      ClosedMeaning(tags, i - 1);
      if EndsBefore(tags, i - 1) {
        Closes(tags, i - 1);
        OrderedMore(Closed(tags, i - 1), Span(tags[i - 2].t, StartOf(tags, i - 2), i - 2));
      } else {
        NothingCloses(tags, i - 1);
      }
    }
  }

  lemma OrderedMore(spans: seq<Span>, e: Span)
    requires Ordered(spans, e.last) && e.first <= e.last && forall s :: s in spans ==> s.last < e.first
    ensures Ordered(spans + [e], e.last + 1)
  {
  }

  lemma NothingCloses(tags: seq<Tag>, i: nat)
    requires i <= |tags| && !EndsBefore(tags, i)
    ensures forall s :: IsEntity(tags, s) ==> s.last + 1 != i
  {
    forall s | IsEntity(tags, s)
      ensures s.last + 1 != i
    {
      SameStart(tags, s);
    }
  }

  /** What the decoders close is the one entity that ends there, and it starts after every earlier one. */
  lemma Closes(tags: seq<Tag>, i: nat)
    requires i <= |tags| && EndsBefore(tags, i)
    ensures i > 0 && !tags[i - 1].Out?
    ensures var e := Span(tags[i - 1].t, StartOf(tags, i - 1), i - 1);
            && e.first <= e.last && IsEntity(tags, e)
            && (forall s :: IsEntity(tags, s) && s.last + 1 == i ==> s == e)
            && (forall s :: IsEntity(tags, s) && s.last + 1 < i ==> s.last < e.first)
  {
    forall s | IsEntity(tags, s) && s.last + 1 == i
      ensures s == Span(tags[i - 1].t, StartOf(tags, i - 1), i - 1)
    {
      SameStart(tags, s);
    }
  }

  /** An entity ending at i - 1 is the one the decoders close there. */
  lemma SameStart(tags: seq<Tag>, s: Span)
    requires IsEntity(tags, s)
    ensures EndsBefore(tags, s.last + 1)
    ensures tags[s.last].t == s.t && StartOf(tags, s.last) == s.first
  {
    InsideOfEntity(tags, s);
  }

  /** Main result. The decoders' list holds exactly the maximal stretches, in order. */
  lemma SpansMeaning(tags: seq<Tag>)
    ensures forall s :: s in Spans(tags) <==> IsEntity(tags, s)
    ensures Ordered(Spans(tags), |tags|)
  {
    ClosedMeaning(tags, |tags| + 1);
  }

  // ---------------------------------------------------------------- the loops

  /** `extract_bio_entities` */
  method ExtractBioEntities(labels: seq<string>) returns (entities: set<Span>)
    ensures entities == set s | s in Spans(MetricTags(labels))
  {
    hide Collects, Spans;
    entities := {};
    var active, start := "", 0;
    var isActive := false;
    var padded := labels + ["O"];
    CollectsNothing(labels);
    for index := 0 to |padded|
      invariant Collects(labels, index, entities, isActive, active, start)
    {
      var lab := padded[index];
      assert index < |labels| ==> lab == labels[index];
      CollectsCounts(labels, index, entities, isActive, active, start);
      CollectsNext(labels, index, entities, isActive, active, start);
      if lab == "O" || lab == "" {
        if isActive {
          entities := entities + {Span(active, start, index - 1)};
        }
        isActive := false;
      } else {
        var prefix, entityType := "B", lab;
        if HasDash(lab) {
          prefix, entityType := lab[..Dash(lab)], lab[Dash(lab) + 1..];
        }
        if prefix == "I" {
          if !(isActive && active == entityType) {
            if isActive {
              entities := entities + {Span(active, start, index - 1)};
            }
            isActive, active, start := true, entityType, index;
          }
        } else {
          if isActive {
            entities := entities + {Span(active, start, index - 1)};
          }
          isActive, active, start := true, entityType, index;
        }
      }
    }
    CollectsAll(labels, entities, isActive, active, start);
  }

  /** State of the metric decoder before position `index`. */
  ghost predicate Collects(labels: seq<string>, index: nat, entities: set<Span>, isActive: bool, active: string,
                           start: nat) {
    var tags := MetricTags(labels);
    && index <= |labels| + 1 && start <= index && entities == (set s | s in Closed(tags, index))
    && (isActive <==> index > 0 && index <= |tags| && !tags[index - 1].Out?)
    && (isActive ==> active == tags[index - 1].t && start == StartOf(tags, index - 1))
  }

  lemma CollectsNothing(labels: seq<string>)
    ensures Collects(labels, 0, {}, false, "", 0)
  {
  }

  lemma CollectsCounts(labels: seq<string>, index: nat, entities: set<Span>, isActive: bool, active: string, start: nat)
    requires Collects(labels, index, entities, isActive, active, start)
    ensures start <= index && (isActive ==> index > 0)
  {
  }

  lemma CollectsAll(labels: seq<string>, entities: set<Span>, isActive: bool, active: string, start: nat)
    requires Collects(labels, |labels| + 1, entities, isActive, active, start)
    ensures entities == set s | s in Spans(MetricTags(labels))
  {
  }

  /** One label: it closes the entity under construction, goes on with it, or opens another one. */
  lemma CollectsNext(labels: seq<string>, index: nat, entities: set<Span>, isActive: bool, active: string, start: nat)
    requires Collects(labels, index, entities, isActive, active, start) && index <= |labels|
    ensures var lab := if index < |labels| then labels[index] else "O";
            var closed := if isActive then entities + {Span(active, start, index - 1)} else entities;
            match MetricTag(lab)
            case Out => Collects(labels, index + 1, closed, false, active, start)
            case Open(t) => Collects(labels, index + 1, closed, true, t, index)
            case Cont(t) =>
              if isActive && active == t then Collects(labels, index + 1, entities, isActive, active, start)
              else Collects(labels, index + 1, closed, true, t, index)
  {
    assert |MetricTags(labels)| == |labels|;
  }

  /** `entity_spans`; None is the ValueError of a label without a dash. */
  method EntitySpans(labels: seq<string>) returns (r: Option<seq<Span>>)
    ensures r.None? <==> !Splittable(labels)
    ensures r.Some? ==> r.value == Spans(SpanTags(labels))
  {
    hide ReadsBelow, Spans;
    var spans: seq<Span> := [];
    var active, start := "", 0;
    var isActive := false;
    var padded := labels + ["O"];
    ReadsNothing(labels);
    for index := 0 to |padded|
      invariant forall i :: 0 <= i < index && i < |labels| ==> labels[i] == "O" || HasDash(labels[i])
      invariant ReadsBelow(labels, index, spans, isActive, active, start)
    {
      var lab := padded[index];
      assert index < |labels| ==> lab == labels[index];
      ReadsCounts(labels, index, spans, isActive, active, start);
      ReadsNext(labels, index, spans, isActive, active, start);
      if lab == "O" {
        if isActive {
          spans := spans + [Span(active, start, index - 1)];
        }
        isActive := false;
      } else {
        if !HasDash(lab) {
          return None;
        }
        var prefix, entity := lab[..Dash(lab)], lab[Dash(lab) + 1..];
        if prefix == "B" || !(isActive && active == entity) {
          if isActive {
            spans := spans + [Span(active, start, index - 1)];
          }
          isActive, active, start := true, entity, index;
        }
      }
    }
    ReadsAll(labels, spans, isActive, active, start);
    r := Some(spans);
  }

  lemma ReadsNothing(labels: seq<string>)
    ensures ReadsBelow(labels, 0, [], false, "", 0)
  {
  }

  lemma ReadsCounts(labels: seq<string>, index: nat, spans: seq<Span>, isActive: bool, active: string, start: nat)
    requires ReadsBelow(labels, index, spans, isActive, active, start)
    ensures start <= index && (isActive ==> index > 0)
  {
  }

  lemma ReadsAll(labels: seq<string>, spans: seq<Span>, isActive: bool, active: string, start: nat)
    requires ReadsBelow(labels, |labels| + 1, spans, isActive, active, start) && Splittable(labels)
    ensures spans == Spans(SpanTags(labels))
  {
  }

  /** One label: it closes the entity under construction, goes on with it, or opens another one. */
  lemma ReadsNext(labels: seq<string>, index: nat, spans: seq<Span>, isActive: bool, active: string, start: nat)
    requires ReadsBelow(labels, index, spans, isActive, active, start) && index <= |labels|
    ensures var lab := if index < |labels| then labels[index] else "O";
            var closed := if isActive then spans + [Span(active, start, index - 1)] else spans;
            && (lab == "O" ==> ReadsBelow(labels, index + 1, closed, false, active, start))
            && (lab != "O" && HasDash(lab) ==>
                  var entity := lab[Dash(lab) + 1..];
                  if lab[..Dash(lab)] == "B" || !(isActive && active == entity) then
                    ReadsBelow(labels, index + 1, closed, true, entity, index)
                  else ReadsBelow(labels, index + 1, spans, isActive, active, start))
  {
  }

  /** State of the decoder before position `index`, if all labels can be split. */
  ghost predicate ReadsBelow(labels: seq<string>, index: nat, spans: seq<Span>, isActive: bool, active: string,
                             start: nat) {
    && index <= |labels| + 1 && start <= index && (isActive ==> index > 0)
    && (Splittable(labels) ==>
          var tags := SpanTags(labels);
          && spans == Closed(tags, index)
          && (isActive <==> index > 0 && index <= |tags| && !tags[index - 1].Out?)
          && (isActive ==> active == tags[index - 1].t && start == StartOf(tags, index - 1)))
  }

  // ---------------------------------------------------------------- transitions and canonical form

  predicate Inside(lab: string) {
    |lab| >= 2 && lab[..2] == "I-"
  }

  /** An "I-" label whose predecessor is not of its entity. */
  predicate Defect(labels: seq<string>, i: nat)
    requires i < |labels|
  {
    Inside(labels[i]) &&
    (i == 0 || (labels[i - 1] != "B-" + labels[i][2..] && labels[i - 1] != "I-" + labels[i][2..]))
  }

  function Defects(labels: seq<string>, n: nat): seq<int>
    requires n <= |labels|
  {
    if n == 0 then [] else Defects(labels, n - 1) + (if Defect(labels, n - 1) then [n - 1] else [])
  }

  lemma {:induction false} DefectsMeaning(labels: seq<string>, n: nat)
    requires n <= |labels|
    ensures forall i :: i in Defects(labels, n) <==> 0 <= i < n && Defect(labels, i)
  {
    if n > 0 {
      DefectsMeaning(labels, n - 1);
    }
  }

  /** `invalid_bio_transitions`, by token index */
  method InvalidBioTransitions(labels: seq<string>) returns (defects: seq<int>)
    ensures defects == Defects(labels, |labels|)
  {
    defects := [];
    var previous := "O";
    for index := 0 to |labels|
      invariant defects == Defects(labels, index)
      invariant previous == if index == 0 then "O" else labels[index - 1]
    {
      var lab := labels[index];
      if Inside(lab) {
        var entity := lab[2..];
        if previous != "B-" + entity && previous != "I-" + entity {
          defects := defects + [index];
        }
      }
      previous := lab;
    }
  }

  /** Each defect opens an entity instead; every other label stays. */
  function Canonical(labels: seq<string>): (r: seq<string>)
    ensures |r| == |labels|
    ensures forall i :: 0 <= i < |labels| ==>
              r[i] == if Defect(labels, i) then "B-" + labels[i][2..] else labels[i]
  {
    seq(|labels|, i requires 0 <= i < |labels| => if Defect(labels, i) then "B-" + labels[i][2..] else labels[i])
  }

  /** `_canonicalize_bio` looks back at its own output; that makes no difference. */
  method CanonicalizeBio(labels: seq<string>) returns (repaired: seq<string>)
    ensures repaired == Canonical(labels)
  {
    repaired := [];
    var previous := "O";
    for index := 0 to |labels|
      invariant repaired == Canonical(labels)[..index]
      invariant previous == if index == 0 then "O" else Canonical(labels)[index - 1]
    {
      var lab := labels[index];
      var output := lab;
      if Inside(lab) {
        var entity := lab[2..];
        LookBack(labels, index);
        if previous != "B-" + entity && previous != "I-" + entity {
          output := "B-" + entity;
        }
      }
      repaired := repaired + [output];
      previous := output;
    }
  }

  /** The repaired predecessor is of the entity exactly when the original one is. */
  lemma LookBack(labels: seq<string>, i: nat)
    requires i < |labels| && Inside(labels[i])
    ensures i > 0 ==>
              var e, p, q := labels[i][2..], labels[i - 1], Canonical(labels)[i - 1];
              (p == "B-" + e || p == "I-" + e) <==> (q == "B-" + e || q == "I-" + e)
  {
    if i > 0 && Defect(labels, i - 1) {
      var e, p := labels[i][2..], labels[i - 1];
      assert p == "I-" + p[2..];
      assert ("B-" + p[2..])[2..] == p[2..];
      assert ("B-" + e)[2..] == e && ("I-" + e)[2..] == e;
      assert ("B-" + p[2..])[0] == 'B' && ("I-" + e)[0] == 'I' && p[0] == 'I' && ("B-" + e)[0] == 'B';
    }
  }

  // ---------------------------------------------------------------- accepted labels

  function LabelOf(tag: Tag): string {
    match tag
    case Out => "O"
    case Open(t) => "B-" + t
    case Cont(t) => "I-" + t
  }

  lemma AcceptedReads(l: string)
    requires Accepted(l)
    ensures (l == "O" || HasDash(l)) && MetricTag(l) == SpanTag(l) && LabelOf(SpanTag(l)) == l
    ensures l != "O" ==> SpanTag(l) == if l[0] == 'B' then Open(l[2..]) else Cont(l[2..])
  {
    if l != "O" {
      assert Dash(l) == 1;
      assert l[..1] == [l[0]];
      assert l == l[..2] + l[2..];
    }
  }

  /** The accepted labels: "O", and "B-" or "I-" before a name of at least one character on one line. */
  lemma AcceptedIff(l: string)
    ensures Accepted(l) <==>
              l == "O" || exists t: string :: t != "" && (forall i :: 0 <= i < |t| ==> t[i] != '\n') &&
                                             (l == "B-" + t || l == "I-" + t)
  {
    if l != "O" && Accepted(l) {
      assert l == [l[0], '-'] + l[2..];
    }
    if t: string :| t != "" && (forall i :: 0 <= i < |t| ==> t[i] != '\n') && (l == "B-" + t || l == "I-" + t) {
      assert l[2..] == t;
    }
  }

  lemma AcceptedSplittable(labels: seq<string>)
    requires AllAccepted(labels)
    ensures Splittable(labels) && MetricTags(labels) == SpanTags(labels)
    ensures forall i :: 0 <= i < |labels| ==> LabelOf(SpanTags(labels)[i]) == labels[i]
  {
    forall i | 0 <= i < |labels|
      ensures labels[i] == "O" || HasDash(labels[i])
    {
      AcceptedReads(labels[i]);
    }
    forall i | 0 <= i < |labels|
      ensures MetricTag(labels[i]) == SpanTag(labels[i]) && LabelOf(SpanTag(labels[i])) == labels[i]
    {
      AcceptedReads(labels[i]);
    }
  }

  /** Main result. On the labels the parser accepts, the metric decoder and the remediation decoder
      find the same entities. */
  lemma DecodersAgree(labels: seq<string>)
    requires AllAccepted(labels)
    ensures Splittable(labels) && Spans(MetricTags(labels)) == Spans(SpanTags(labels))
  {
    AcceptedSplittable(labels);
  }

  /** The prefix is neither "B" nor "I": one decoder opens an entity, the other continues one. */
  predicate OddPrefix(l: string) {
    l != "O" && HasDash(l) && l[..Dash(l)] != "B" && l[..Dash(l)] != "I"
  }

  /** Main result. On all labels the remediation decoder can split, the two decoders agree exactly
      when no label with an odd prefix continues the type before it. */
  lemma DecodersAgreeIff(labels: seq<string>)
    requires Splittable(labels)
    ensures (forall s :: s in Spans(MetricTags(labels)) <==> s in Spans(SpanTags(labels)))
            <==> (forall i :: 0 <= i < |labels| && OddPrefix(labels[i]) ==> Starts(SpanTags(labels), i))
  {
    var m, r := MetricTags(labels), SpanTags(labels);
    SpansMeaning(m);
    SpansMeaning(r);
    if i :| 0 <= i < |labels| && OddPrefix(labels[i]) && !Starts(r, i) {
      var s := EntityAt(m, i);
      assert !IsEntity(r, s);
    } else {
      forall i | 0 <= i < |labels|
        ensures SameReading(m, r, i)
      {
        assert OddPrefix(labels[i]) ==> Starts(r, i);
      }
      forall s
        ensures IsEntity(m, s) <==> IsEntity(r, s)
      {
        SameEntities(m, r, s);
      }
    }
  }

  /** `B-X`, `Q-X`: the remediation decoder reads one entity, the metric decoder two. */
  lemma DecodersDisagree()
    ensures var labels := ["B-X", "Q-X"];
            && Splittable(labels)
            && Spans(SpanTags(labels)) == [Span("X", 0, 1)]
            && Spans(MetricTags(labels)) == [Span("X", 0, 0), Span("X", 1, 1)]
  {
    hide Spans;
    var labels := ["B-X", "Q-X"];
    assert Dash("B-X") == 1 && Dash("Q-X") == 1;
    assert MetricTags(labels) == [Open("X"), Open("X")] && SpanTags(labels) == [Open("X"), Cont("X")];
    OpensTwice("X");
    OpensAndGoesOn("X");
  }

  lemma OpensTwice(t: string)
    ensures Spans([Open(t), Open(t)]) == [Span(t, 0, 0), Span(t, 1, 1)]
  {
    var p := [Open(t), Open(t)];
    assert Closed(p, 1) == [] && Closed(p, 2) == [Span(t, 0, 0)];
  }

  lemma OpensAndGoesOn(t: string)
    ensures Spans([Open(t), Cont(t)]) == [Span(t, 0, 1)]
  {
    var p := [Open(t), Cont(t)];
    assert Closed(p, 1) == [] && Closed(p, 2) == [];
  }

  predicate SameReading(m: seq<Tag>, r: seq<Tag>, i: nat)
    requires i < |m| == |r|
  {
    || m[i] == r[i]
    || (!m[i].Out? && !r[i].Out? && m[i].t == r[i].t && Starts(m, i) && Starts(r, i))
  }

  lemma SameEntities(m: seq<Tag>, r: seq<Tag>, s: Span)
    requires |m| == |r| && forall i :: 0 <= i < |m| ==> SameReading(m, r, i)
    ensures IsEntity(m, s) <==> IsEntity(r, s)
  {
    if s.first <= s.last < |m| {
      forall i | 0 <= i < |m|
        ensures Starts(m, i) <==> Starts(r, i)
        ensures m[i].Out? == r[i].Out? && (!m[i].Out? ==> m[i].t == r[i].t)
      {
        assert SameReading(m, r, i);
        assert i > 0 ==> SameReading(m, r, i - 1);
      }
      InsideOfEntity(m, s);
      InsideOfEntity(r, s);
    }
  }

  /** `IsEntity` in terms of starts and types only. */
  lemma InsideOfEntity(tags: seq<Tag>, s: Span)
    requires s.first <= s.last < |tags|
    ensures IsEntity(tags, s) <==>
              && Starts(tags, s.first) && tags[s.first].t == s.t
              && (forall i :: s.first < i <= s.last ==> !tags[i].Out? && tags[i].t == s.t && !Starts(tags, i))
              && (s.last + 1 < |tags| ==> tags[s.last + 1].Out? || Starts(tags, s.last + 1))
  {
    if IsEntity(tags, s) {
      forall i | s.first < i <= s.last
        ensures !tags[i].Out? && tags[i].t == s.t && !Starts(tags, i)
      {
        assert i - 1 > s.first ==> tags[i - 1] == Cont(s.t);
      }
      assert s.last > s.first ==> tags[s.last] == Cont(s.t);
    } else if
      && Starts(tags, s.first) && tags[s.first].t == s.t
      && (forall i :: s.first < i <= s.last ==> !tags[i].Out? && tags[i].t == s.t && !Starts(tags, i))
      && (s.last + 1 < |tags| ==> tags[s.last + 1].Out? || Starts(tags, s.last + 1)) {
      assert s.last > s.first ==> !tags[s.last].Out? && tags[s.last].t == s.t;
    }
  }

  lemma EntityBounds(tags: seq<Tag>, s: Span)
    requires IsEntity(tags, s)
    ensures s.first <= s.last < |tags|
  {
  }

  /** The entity that begins at a starting position. */
  lemma EntityAt(tags: seq<Tag>, a: nat) returns (s: Span)
    requires a < |tags| && Starts(tags, a)
    ensures IsEntity(tags, s) && s.first == a
  {
    var b := a;
    while b + 1 < |tags| && tags[b + 1] == Cont(tags[a].t)
      invariant a <= b < |tags|
      invariant forall i :: a < i <= b ==> tags[i] == Cont(tags[a].t)
      decreases |tags| - b
    {
      b := b + 1;
    }
    s := Span(tags[a].t, a, b);
  }

  // ---------------------------------------------------------------- encoding spans

  function EncodeAt(spans: seq<Span>, i: nat): Tag {
    if spans == [] then Out
    else
      var s := spans[|spans| - 1];
      if i == s.first then Open(s.t)
      else if s.first < i <= s.last then Cont(s.t)
      else EncodeAt(spans[..|spans| - 1], i)
  }

  /** Spans written back as tags. */
  function EncodeTags(spans: seq<Span>, n: nat): (tags: seq<Tag>)
    ensures |tags| == n && forall i :: 0 <= i < n ==> tags[i] == EncodeAt(spans, i)
  {
    seq(n, i requires 0 <= i < n => EncodeAt(spans, i))
  }

  /** Spans written back as labels. */
  function Encode(spans: seq<Span>, n: nat): (labels: seq<string>)
    ensures |labels| == n && forall i :: 0 <= i < n ==> labels[i] == LabelOf(EncodeAt(spans, i))
  {
    seq(n, i requires 0 <= i < n => LabelOf(EncodeAt(spans, i)))
  }

  predicate Covers(s: Span, i: nat) {
    s.first <= i <= s.last
  }

  lemma {:induction false} EncodeAtHits(spans: seq<Span>, n: nat, s: Span, i: nat)
    requires Ordered(spans, n) && s in spans && Covers(s, i)
    ensures EncodeAt(spans, i) == if i == s.first then Open(s.t) else Cont(s.t)
  {
    var front, z := spans[..|spans| - 1], spans[|spans| - 1];
    assert spans == front + [z];
    if s != z {
      EncodeAtHits(front, n, s, i);
    }
  }

  lemma {:induction false} EncodeAtMisses(spans: seq<Span>, i: nat)
    requires forall s :: s in spans ==> !Covers(s, i) && s.first <= s.last
    ensures EncodeAt(spans, i) == Out
  {
    if spans != [] {
      var front, z := spans[..|spans| - 1], spans[|spans| - 1];
      assert z in spans && spans == front + [z];
      EncodeAtMisses(front, i);
    }
  }

  /** Canonical tags: a continuation that starts an entity is written as an opening. */
  function CanonTag(tags: seq<Tag>, i: nat): Tag
    requires i < |tags|
  {
    if tags[i].Cont? && Starts(tags, i) then Open(tags[i].t) else tags[i]
  }

  function CanonTags(tags: seq<Tag>): (r: seq<Tag>)
    ensures |r| == |tags| && forall i :: 0 <= i < |tags| ==> r[i] == CanonTag(tags, i)
  {
    seq(|tags|, i requires 0 <= i < |tags| => CanonTag(tags, i))
  }

  lemma EntityOver(tags: seq<Tag>, i: nat) returns (s: Span)
    requires i < |tags| && !tags[i].Out?
    ensures IsEntity(tags, s) && Covers(s, i) && s.t == tags[i].t && (i == s.first <==> Starts(tags, i))
  {
    var a := StartOf(tags, i);
    s := EntityAt(tags, a);
    InsideOfEntity(tags, s);
  }

  /** Encoding the decoded spans gives the canonical tags. */
  lemma EncodeDecoded(tags: seq<Tag>)
    ensures EncodeTags(Spans(tags), |tags|) == CanonTags(tags)
  {
    SpansMeaning(tags);
    forall i | 0 <= i < |tags|
      ensures EncodeAt(Spans(tags), i) == CanonTag(tags, i)
    {
      if tags[i].Out? {
        forall s | s in Spans(tags)
          ensures !Covers(s, i) && s.first <= s.last
        {
          InsideOfEntity(tags, s);
        }
        EncodeAtMisses(Spans(tags), i);
      } else {
        var s := EntityOver(tags, i);
        EncodeAtHits(Spans(tags), |tags|, s, i);
      }
    }
  }

  lemma LastIsLatest(a: seq<Span>, n: nat, s: Span)
    requires Ordered(a, n) && s in a
    ensures s == a[|a| - 1] || s.last < a[|a| - 1].first
    ensures s in a[..|a| - 1] <==> s != a[|a| - 1]
  {
    var k :| 0 <= k < |a| && a[k] == s;
  }

  lemma SameLast(a: seq<Span>, b: seq<Span>, n: nat)
    requires Ordered(a, n) && Ordered(b, n) && a != [] && b != [] && forall s :: s in a <==> s in b
    ensures a[|a| - 1] == b[|b| - 1]
  {
    var x, y := a[|a| - 1], b[|b| - 1];
    assert x in b && y in a;
    LastIsLatest(a, n, y);
    LastIsLatest(b, n, x);
  }

  lemma {:induction false} OrderedUnique(a: seq<Span>, b: seq<Span>, n: nat)
    requires Ordered(a, n) && Ordered(b, n) && forall s :: s in a <==> s in b
    ensures a == b
  {
    if a == [] {
      NoMembers(b);
    } else if b == [] {
      NoMembers(a);
    } else {
      SameLast(a, b, n);
      var af, bf := a[..|a| - 1], b[..|b| - 1];
      forall s
        ensures s in af <==> s in bf
      {
        if s in a {
          LastIsLatest(a, n, s);
          LastIsLatest(b, n, s);
        } else {
          assert s in af ==> s in a;
          assert s in bf ==> s in b;
        }
      }
      OrderedUnique(af, bf, n);
      assert a == af + [a[|a| - 1]] && b == bf + [b[|b| - 1]];
    }
  }

  /** Main result. Decoding what was encoded returns every ordered list of spans. */
  lemma DecodeEncoded(spans: seq<Span>, n: nat)
    requires Ordered(spans, n)
    ensures Spans(EncodeTags(spans, n)) == spans
  {
    var tags := EncodeTags(spans, n);
    SpansMeaning(tags);
    forall s
      ensures s in spans <==> s in Spans(tags)
    {
      if s in spans {
        EncodedIsEntity(spans, n, s);
      } else if IsEntity(tags, s) {
        EncodedOnlyThose(spans, n, s);
      }
    }
    OrderedUnique(spans, Spans(tags), n);
  }

  lemma EncodedIsEntity(spans: seq<Span>, n: nat, s: Span)
    requires Ordered(spans, n) && s in spans
    ensures IsEntity(EncodeTags(spans, n), s)
  {
    var tags := EncodeTags(spans, n);
    var k :| 0 <= k < |spans| && spans[k] == s;
    forall i | s.first <= i <= s.last
      ensures tags[i] == if i == s.first then Open(s.t) else Cont(s.t)
    {
      EncodeAtHits(spans, n, s, i);
    }
    var j := s.last + 1;
    if j < n {
      if u :| u in spans && Covers(u, j) {
        var m :| 0 <= m < |spans| && spans[m] == u;
        EncodeAtHits(spans, n, u, j);
        assert m != k && m > k;
      } else {
        forall u | u in spans
          ensures !Covers(u, j) && u.first <= u.last
        {
        }
        EncodeAtMisses(spans, j);
      }
    }
  }

  lemma EncodedOnlyThose(spans: seq<Span>, n: nat, s: Span)
    requires Ordered(spans, n) && IsEntity(EncodeTags(spans, n), s)
    ensures s in spans
  {
    var tags := EncodeTags(spans, n);
    if forall u :: u in spans ==> !Covers(u, s.first) {
      EncodeAtMisses(spans, s.first);
    } else {
      var u :| u in spans && Covers(u, s.first);
      EncodeAtHits(spans, n, u, s.first);
      EncodedIsEntity(spans, n, u);
      InsideOfEntity(tags, u);
      InsideOfEntity(tags, s);
      assert u.first == s.first && u.t == s.t;
      assert u.last == s.last;
    }
  }

  // ---------------------------------------------------------------- the canonical form means the entities

  lemma LabelReadsBack(tag: Tag)
    ensures (LabelOf(tag) == "O" || HasDash(LabelOf(tag))) && SpanTag(LabelOf(tag)) == tag
  {
    if !tag.Out? {
      var l := LabelOf(tag);
      assert l[0] != '-' && l[1] == '-' && Dash(l) == 1;
      assert l[..1] == [l[0]] && l[2..] == tag.t;
    }
  }

  /** On accepted labels a defect is a continuation that starts an entity. */
  lemma DefectIsOrphan(labels: seq<string>, i: nat)
    requires AllAccepted(labels) && i < |labels|
    ensures Splittable(labels)
    ensures Defect(labels, i) <==> SpanTags(labels)[i].Cont? && Starts(SpanTags(labels), i)
  {
    AcceptedSplittable(labels);
    AcceptedReads(labels[i]);
    if Inside(labels[i]) {
      assert labels[i][0] == 'I' && labels[i][1] == '-';
      var e := labels[i][2..];
      if i > 0 {
        AcceptedReads(labels[i - 1]);
        assert ("B-" + e)[0] == 'B' && ("B-" + e)[2..] == e && ("I-" + e)[0] == 'I' && ("I-" + e)[2..] == e;
      }
    } else if labels[i] != "O" {
      assert labels[i][..2] == [labels[i][0], '-'];
    }
  }

  lemma CanonicalReads(labels: seq<string>)
    requires AllAccepted(labels)
    ensures Splittable(labels) && Splittable(Canonical(labels))
    ensures SpanTags(Canonical(labels)) == CanonTags(SpanTags(labels))
    ensures forall i :: 0 <= i < |labels| ==> Canonical(labels)[i] == LabelOf(CanonTag(SpanTags(labels), i))
  {
    AcceptedSplittable(labels);
    var tags, c := SpanTags(labels), Canonical(labels);
    forall i | 0 <= i < |labels|
      ensures c[i] == LabelOf(CanonTag(tags, i))
      ensures (c[i] == "O" || HasDash(c[i])) && SpanTag(c[i]) == CanonTag(tags, i)
    {
      DefectIsOrphan(labels, i);
      AcceptedReads(labels[i]);
      LabelReadsBack(CanonTag(tags, i));
    }
  }

  /** Main result. The canonical form is the entities written back as labels. */
  lemma CanonicalIsEncoding(labels: seq<string>)
    requires AllAccepted(labels)
    ensures Splittable(labels) && Canonical(labels) == Encode(Spans(SpanTags(labels)), |labels|)
  {
    CanonicalReads(labels);
    EncodeDecoded(SpanTags(labels));
  }

  /** Main result. Canonicalising keeps the entities. */
  lemma CanonicalKeepsEntities(labels: seq<string>)
    requires AllAccepted(labels)
    ensures Splittable(labels) && Splittable(Canonical(labels))
    ensures Spans(SpanTags(Canonical(labels))) == Spans(SpanTags(labels))
  {
    CanonicalReads(labels);
    EncodeDecoded(SpanTags(labels));
    SpansMeaning(SpanTags(labels));
    DecodeEncoded(Spans(SpanTags(labels)), |labels|);
  }

  lemma CanonicalAccepted(labels: seq<string>)
    requires AllAccepted(labels)
    ensures AllAccepted(Canonical(labels))
  {
    forall i | 0 <= i < |labels|
      ensures Accepted(Canonical(labels)[i])
    {
      var l := labels[i];
      if Defect(labels, i) {
        assert l[0] == 'I';
        assert ("B-" + l[2..])[2..] == l[2..];
      }
    }
  }

  /** Main result. Canonicalising changes exactly the positions the transition check reports. */
  lemma CanonicalChangesDefects(labels: seq<string>)
    ensures forall i :: 0 <= i < |labels| ==> (Canonical(labels)[i] != labels[i] <==> i in Defects(labels, |labels|))
  {
    hide Defects, Defect, Canonical;
    DefectsMeaning(labels, |labels|);
    forall i | 0 <= i < |labels|
      ensures Canonical(labels)[i] != labels[i] <==> Defect(labels, i)
    {
      ChangesDefect(labels, i);
    }
  }

  lemma ChangesDefect(labels: seq<string>, i: nat)
    requires i < |labels|
    ensures Canonical(labels)[i] != labels[i] <==> Defect(labels, i)
  {
    assert Defect(labels, i) ==> labels[i][0] == 'I' && Canonical(labels)[i][0] == 'B';
  }

  lemma FixedPointHasNoDefects(labels: seq<string>)
    requires Canonical(labels) == labels
    ensures Defects(labels, |labels|) == []
  {
    CanonicalChangesDefects(labels);
    DefectsMeaning(labels, |labels|);
    forall i
      ensures i !in Defects(labels, |labels|)
    {
    }
    NoMembers(Defects(labels, |labels|));
  }

  /** Main result. The canonical form is its own canonical form and has no defect left. */
  lemma CanonicalIdempotent(labels: seq<string>)
    requires AllAccepted(labels)
    ensures Canonical(Canonical(labels)) == Canonical(labels)
    ensures Defects(Canonical(labels), |labels|) == []
  {
    CanonicalAccepted(labels);
    CanonicalIsEncoding(labels);
    CanonicalIsEncoding(Canonical(labels));
    CanonicalKeepsEntities(labels);
    FixedPointHasNoDefects(Canonical(labels));
  }

  /** Main result. Equal canonical forms mean equal entities, and conversely. */
  lemma CanonicalEqualIff(a: seq<string>, b: seq<string>)
    requires AllAccepted(a) && AllAccepted(b) && |a| == |b|
    ensures Splittable(a) && Splittable(b)
    ensures Canonical(a) == Canonical(b) <==> Spans(SpanTags(a)) == Spans(SpanTags(b))
  {
    CanonicalIsEncoding(a);
    CanonicalIsEncoding(b);
    CanonicalKeepsEntities(a);
    CanonicalKeepsEntities(b);
  }
}
