/** BIO-aware propagation of word labels to subword pieces. */
module Subword {
  import opened RawItems
  import opened Bio

  predicate Opening(lab: string) {
    |lab| >= 2 && lab[..2] == "B-"
  }

  function ContinuationLabel(lab: string): string {
    if Opening(lab) then "I-" + lab[2..] else lab
  }

  /** "B-" before any type becomes "I-" before it; every other label is repeated. */
  lemma ContinuationIs(lab: string, t: string)
    ensures lab == "B-" + t ==> ContinuationLabel(lab) == "I-" + t
    ensures !("B-" <= lab) ==> ContinuationLabel(lab) == lab
  {
    if lab == "B-" + t {
      assert lab[2..] == t;
    }
  }

  /** Position i carries another word than the position before. */
  predicate FirstPiece(wordIds: seq<Option<nat>>, i: nat)
    requires i < |wordIds|
  {
    wordIds[i].Some? && (i == 0 || wordIds[i - 1] != wordIds[i])
  }

  predicate InRange(wordIds: seq<Option<nat>>, labels: seq<string>) {
    forall i :: 0 <= i < |wordIds| && wordIds[i].Some? ==> wordIds[i].value < |labels|
  }

  /** The training label of a piece; None is the ignored index. */
  function LossAt(labels: seq<string>, wordIds: seq<Option<nat>>, bioAware: bool, i: nat): Option<string>
    requires InRange(wordIds, labels) && i < |wordIds|
  {
    if wordIds[i].None? then None
    else if FirstPiece(wordIds, i) then Some(labels[wordIds[i].value])
    else if bioAware then Some(ContinuationLabel(labels[wordIds[i].value]))
    else None
  }

  /** The evaluation label of a piece: only first pieces speak for their word. */
  function WordAt(labels: seq<string>, wordIds: seq<Option<nat>>, i: nat): Option<string>
    requires InRange(wordIds, labels) && i < |wordIds|
  {
    if FirstPiece(wordIds, i) then Some(labels[wordIds[i].value]) else None
  }

  /** The alignment loop for one sentence. */
  method AlignLabels(labels: seq<string>, wordIds: seq<Option<nat>>, bioAware: bool)
    returns (loss: seq<Option<string>>, words: seq<Option<string>>)
    requires InRange(wordIds, labels)
    ensures |loss| == |words| == |wordIds|
    ensures forall i :: 0 <= i < |wordIds| ==> loss[i] == LossAt(labels, wordIds, bioAware, i)
    ensures forall i :: 0 <= i < |wordIds| ==> words[i] == WordAt(labels, wordIds, i)
    ensures forall i :: 0 <= i < |wordIds| && wordIds[i].None? ==> loss[i] == None && words[i] == None
    ensures forall i :: 0 <= i < |wordIds| && wordIds[i].Some? && (i == 0 || wordIds[i - 1] != wordIds[i]) ==>
              loss[i] == words[i] == Some(labels[wordIds[i].value])
    ensures forall i :: 0 < i < |wordIds| && wordIds[i].Some? && wordIds[i - 1] == wordIds[i] ==>
              words[i] == None && (loss[i].Some? <==> bioAware)
  {
    loss, words := [], [];
    var previous: Option<nat> := None;
    for k := 0 to |wordIds|
      invariant |loss| == |words| == k
      invariant previous == if k == 0 then None else wordIds[k - 1]
      invariant forall i :: 0 <= i < k ==> loss[i] == LossAt(labels, wordIds, bioAware, i)
      invariant forall i :: 0 <= i < k ==> words[i] == WordAt(labels, wordIds, i)
    {
      var wordId := wordIds[k];
      if wordId.None? {
        loss, words := loss + [None], words + [None];
      } else {
        var lab := labels[wordId.value];
        var firstPiece := wordId != previous;
        words := words + [if firstPiece then Some(lab) else None];
        if firstPiece {
          loss := loss + [Some(lab)];
        } else if bioAware {
          loss := loss + [Some(ContinuationLabel(lab))];
        } else {
          loss := loss + [None];
        }
      }
      previous := wordId;
    }
  }

  // ---------------------------------------------------------------- what a tokenizer produces

  /** Pieces of the words 0, 1, ..., m - 1 in order, none skipped, between special tokens. */
  predicate Tiling(wordIds: seq<Option<nat>>, lo: nat, hi: nat, m: nat) {
    && lo <= hi <= |wordIds|
    && (forall i :: 0 <= i < |wordIds| ==> (wordIds[i].Some? <==> lo <= i < hi))
    && (lo == hi <==> m == 0)
    && (lo < hi ==> wordIds[lo].value == 0 && wordIds[hi - 1].value == m - 1)
    && (forall i :: lo <= i < hi - 1 ==>
          wordIds[i + 1].value == wordIds[i].value || wordIds[i + 1].value == wordIds[i].value + 1)
  }

  lemma {:induction false} WordsRise(wordIds: seq<Option<nat>>, lo: nat, hi: nat, m: nat, i: nat, j: nat)
    requires Tiling(wordIds, lo, hi, m) && lo <= i <= j < hi
    ensures wordIds[i].value <= wordIds[j].value
    decreases j - i
  {
    if i < j {
      WordsRise(wordIds, lo, hi, m, i, j - 1);
    }
  }

  /** Every covered word has a first piece. */
  lemma FirstOf(wordIds: seq<Option<nat>>, lo: nat, hi: nat, m: nat, k: nat) returns (i: nat)
    requires Tiling(wordIds, lo, hi, m) && k < m
    ensures lo <= i < hi && wordIds[i].value == k && FirstPiece(wordIds, i)
  {
    i := lo;
    while wordIds[i].value != k
      invariant lo <= i < hi && wordIds[i].value <= k
      invariant wordIds[i].value == k ==> FirstPiece(wordIds, i)
      decreases hi - i
    {
      i := i + 1;
    }
  }

  /** Position i is the last piece of its word. */
  predicate LastPiece(wordIds: seq<Option<nat>>, i: nat)
    requires i < |wordIds|
  {
    wordIds[i].Some? && (i + 1 == |wordIds| || wordIds[i + 1] != wordIds[i])
  }

  lemma LastOf(wordIds: seq<Option<nat>>, lo: nat, hi: nat, m: nat, k: nat) returns (i: nat)
    requires Tiling(wordIds, lo, hi, m) && k < m
    ensures lo <= i < hi && wordIds[i].value == k && LastPiece(wordIds, i)
  {
    i := FirstOf(wordIds, lo, hi, m, k);
    while i + 1 < hi && wordIds[i + 1].value == k
      invariant lo <= i < hi && wordIds[i].value == k
      decreases hi - i
    {
      i := i + 1;
    }
  }

  // ---------------------------------------------------------------- tags of pieces

  /** Piece labels as the metric reads them; ignored pieces count as "O". */
  function PieceLabel(labels: seq<string>, wordIds: seq<Option<nat>>, i: nat): string
    requires InRange(wordIds, labels) && i < |wordIds|
  {
    match LossAt(labels, wordIds, true, i)
    case None => "O"
    case Some(l) => l
  }

  function PieceTags(labels: seq<string>, wordIds: seq<Option<nat>>): (tags: seq<Tag>)
    requires InRange(wordIds, labels)
    ensures |tags| == |wordIds|
    ensures forall i :: 0 <= i < |wordIds| ==> tags[i] == MetricTag(PieceLabel(labels, wordIds, i))
  {
    seq(|wordIds|, i requires 0 <= i < |wordIds| => MetricTag(PieceLabel(labels, wordIds, i)))
  }

  /** A label that opens an entity without being written "B-": repeating it opens another one. */
  predicate Reopens(lab: string) {
    MetricTag(lab).Open? && !Opening(lab)
  }

  lemma ContinuationReads(lab: string)
    ensures var t, c := MetricTag(lab), MetricTag(ContinuationLabel(lab));
            && c.Out? == t.Out? && (!t.Out? ==> c.t == t.t)
            && (!t.Out? ==> (c.Cont? <==> !Reopens(lab)))
  {
    if Opening(lab) {
      var c := ContinuationLabel(lab);
      assert lab[0] == 'B' && lab[1] == '-' && lab != "O";
      assert Dash(lab) == 1 && lab[..1] == "B";
      assert c[0] == 'I' && c[1] == '-' && c != "O";
      assert Dash(c) == 1 && c[..1] == "I" && c[2..] == lab[2..];
    }
  }

  /** No repeated label reopens: a word that reopens has a single piece. */
  predicate SinglePieceReopens(labels: seq<string>, wordIds: seq<Option<nat>>)
    requires InRange(wordIds, labels)
  {
    forall i :: 0 <= i < |wordIds| && wordIds[i].Some? && !FirstPiece(wordIds, i) ==> !Reopens(labels[wordIds[i].value])
  }

  /** The type of a piece is the type of its word. */
  lemma PieceType(labels: seq<string>, wordIds: seq<Option<nat>>, lo: nat, hi: nat, m: nat, i: nat)
    requires InRange(wordIds, labels) && Tiling(wordIds, lo, hi, m) && m <= |labels| && lo <= i < hi
    ensures var p, w, k := PieceTags(labels, wordIds)[i], MetricTags(labels[..m]), wordIds[i].value;
            && k < m && p.Out? == w[k].Out? && (!p.Out? ==> p.t == w[k].t)
            && (FirstPiece(wordIds, i) ==> p == w[k])
            && (!FirstPiece(wordIds, i) && !p.Out? ==> (p.Cont? <==> !Reopens(labels[k])))
  {
    var k := wordIds[i].value;
    WordsRise(wordIds, lo, hi, m, i, hi - 1);
    ContinuationReads(labels[k]);
    assert labels[..m][k] == labels[k];
  }

  lemma SpecialIsOut(labels: seq<string>, wordIds: seq<Option<nat>>, i: nat)
    requires InRange(wordIds, labels) && i < |wordIds| && wordIds[i].None?
    ensures PieceTags(labels, wordIds)[i] == Out
  {
  }

  /** A first piece starts an entity when its word does; a later piece only when its label reopens. */
  lemma PieceStarts(labels: seq<string>, wordIds: seq<Option<nat>>, lo: nat, hi: nat, m: nat, i: nat)
    requires InRange(wordIds, labels) && Tiling(wordIds, lo, hi, m) && m <= |labels| && lo <= i < hi
    ensures var p, w, k := PieceTags(labels, wordIds), MetricTags(labels[..m]), wordIds[i].value;
            && k < m
            && (FirstPiece(wordIds, i) ==> (Starts(p, i) <==> Starts(w, k)))
            && (!FirstPiece(wordIds, i) ==> (Starts(p, i) <==> Reopens(labels[k])))
  {
    hide MetricTag, PieceTags, MetricTags, PieceLabel;
    var p, w, k := PieceTags(labels, wordIds), MetricTags(labels[..m]), wordIds[i].value;
    PieceType(labels, wordIds, lo, hi, m, i);
    assert labels[..m][k] == labels[k];
    if i > lo {
      PieceType(labels, wordIds, lo, hi, m, i - 1);
    } else if i > 0 {
      SpecialIsOut(labels, wordIds, i - 1);
    }
  }

  // ---------------------------------------------------------------- entities of pieces

  /** Span `s'` of pieces is span `s` of words, each word replaced by its pieces. */
  predicate Lifts(wordIds: seq<Option<nat>>, s: Span, s': Span) {
    && s'.first < |wordIds| && s'.last < |wordIds|
    && FirstPiece(wordIds, s'.first) && wordIds[s'.first] == Some(s.first)
    && LastPiece(wordIds, s'.last) && wordIds[s'.last] == Some(s.last)
    && s.t == s'.t
  }

  lemma {:induction false} SameWordPieces(wordIds: seq<Option<nat>>, lo: nat, hi: nat, m: nat, i: nat, j: nat)
    requires Tiling(wordIds, lo, hi, m) && lo <= i < j < hi && FirstPiece(wordIds, j)
    ensures wordIds[i].value < wordIds[j].value
  {
    WordsRise(wordIds, lo, hi, m, i, j - 1);
  }

  /** Types and starts of the pieces are those of the words, and later pieces start nothing. */
  ghost predicate Mirrors(p: seq<Tag>, w: seq<Tag>, wordIds: seq<Option<nat>>, lo: nat, hi: nat) {
    && |p| == |wordIds| && lo <= hi <= |p|
    && (forall i :: lo <= i < hi ==> wordIds[i].Some? && MirrorsAt(p, w, wordIds, i))
    && (forall i :: 0 <= i < |p| && !(lo <= i < hi) ==> p[i] == Out)
  }

  predicate MirrorsAt(p: seq<Tag>, w: seq<Tag>, wordIds: seq<Option<nat>>, i: nat)
    requires i < |p| == |wordIds| && wordIds[i].Some?
  {
    var k := wordIds[i].value;
    && k < |w| && p[i].Out? == w[k].Out? && (!p[i].Out? ==> p[i].t == w[k].t)
    && (Starts(p, i) <==> FirstPiece(wordIds, i) && Starts(w, k))
  }

  lemma PiecesMirror(labels: seq<string>, wordIds: seq<Option<nat>>, lo: nat, hi: nat, m: nat)
    requires InRange(wordIds, labels) && Tiling(wordIds, lo, hi, m) && m <= |labels|
    requires SinglePieceReopens(labels, wordIds)
    ensures Mirrors(PieceTags(labels, wordIds), MetricTags(labels[..m]), wordIds, lo, hi)
  {
    var p, w := PieceTags(labels, wordIds), MetricTags(labels[..m]);
    forall i | lo <= i < hi
      ensures MirrorsAt(p, w, wordIds, i)
    {
      PieceStarts(labels, wordIds, lo, hi, m, i);
      PieceType(labels, wordIds, lo, hi, m, i);
    }
    forall i | 0 <= i < |p| && !(lo <= i < hi)
      ensures p[i] == Out
    {
      SpecialIsOut(labels, wordIds, i);
    }
  }

  /** After the last piece of word k comes a special token or the first piece of word k + 1. */
  lemma AfterLast(p: seq<Tag>, w: seq<Tag>, wordIds: seq<Option<nat>>, lo: nat, hi: nat, i: nat)
    requires Tiling(wordIds, lo, hi, |w|) && Mirrors(p, w, wordIds, lo, hi) && lo <= i < hi && LastPiece(wordIds, i)
    ensures var k := wordIds[i].value;
            && k < |w|
            && (i + 1 < |p| && k + 1 == |w| ==> p[i + 1] == Out)
            && (k + 1 < |w| ==>
                  i + 1 < hi && p[i + 1].Out? == w[k + 1].Out? && (Starts(p, i + 1) <==> Starts(w, k + 1)))
  {
    hide Starts;
    assert MirrorsAt(p, w, wordIds, i);
    if i + 1 < hi {
      assert MirrorsAt(p, w, wordIds, i + 1);
    }
  }

  lemma LiftedMiddle(p: seq<Tag>, w: seq<Tag>, wordIds: seq<Option<nat>>, lo: nat, hi: nat, s: Span, s': Span, i: nat)
    requires Tiling(wordIds, lo, hi, |w|) && Mirrors(p, w, wordIds, lo, hi)
    requires IsEntity(w, s) && Lifts(wordIds, s, s') && s'.first < i <= s'.last
    ensures !p[i].Out? && p[i].t == s'.t && !Starts(p, i)
  {
    InsideOfEntity(w, s);
    WordsRise(wordIds, lo, hi, |w|, s'.first, i);
    WordsRise(wordIds, lo, hi, |w|, i, s'.last);
    assert MirrorsAt(p, w, wordIds, i);
    if FirstPiece(wordIds, i) {
      SameWordPieces(wordIds, lo, hi, |w|, s'.first, i);
    }
  }

  lemma LiftedBounds(wordIds: seq<Option<nat>>, lo: nat, hi: nat, m: nat, s: Span, s': Span)
    requires Tiling(wordIds, lo, hi, m) && s.first <= s.last && Lifts(wordIds, s, s')
    ensures lo <= s'.first <= s'.last < hi
  {
    if s'.last < s'.first {
      SameWordPieces(wordIds, lo, hi, m, s'.last, s'.first);
    }
  }

  lemma LiftedFirst(p: seq<Tag>, w: seq<Tag>, wordIds: seq<Option<nat>>, lo: nat, hi: nat, s: Span, s': Span)
    requires Mirrors(p, w, wordIds, lo, hi) && Lifts(wordIds, s, s') && lo <= s'.first < hi
    requires s.first < |w| && Starts(w, s.first) && w[s.first].t == s.t
    ensures Starts(p, s'.first) && p[s'.first].t == s'.t
  {
    assert MirrorsAt(p, w, wordIds, s'.first);
  }

  lemma LiftedIsEntity(p: seq<Tag>, w: seq<Tag>, wordIds: seq<Option<nat>>, lo: nat, hi: nat, s: Span, s': Span)
    requires Tiling(wordIds, lo, hi, |w|) && Mirrors(p, w, wordIds, lo, hi)
    requires IsEntity(w, s) && Lifts(wordIds, s, s')
    ensures IsEntity(p, s')
  {
    hide Tiling, Starts, IsEntity;
    EntityBounds(w, s);
    InsideOfEntity(w, s);
    LiftedBounds(wordIds, lo, hi, |w|, s, s');
    LiftedFirst(p, w, wordIds, lo, hi, s, s');
    forall i | s'.first < i <= s'.last
      ensures !p[i].Out? && p[i].t == s'.t && !Starts(p, i)
    {
      LiftedMiddle(p, w, wordIds, lo, hi, s, s', i);
    }
    AfterLast(p, w, wordIds, lo, hi, s'.last);
    InsideOfEntity(p, s');
  }

  /** A piece entity begins at a first piece, ends at a last piece and stays among the pieces. */
  lemma PieceEntityBounds(p: seq<Tag>, w: seq<Tag>, wordIds: seq<Option<nat>>, lo: nat, hi: nat, s': Span)
    requires Tiling(wordIds, lo, hi, |w|) && Mirrors(p, w, wordIds, lo, hi) && IsEntity(p, s')
    ensures lo <= s'.first <= s'.last < hi
    ensures FirstPiece(wordIds, s'.first) && LastPiece(wordIds, s'.last)
  {
    hide IsEntity, Tiling, MirrorsAt;
    EntityEnds(p, s');
    assert lo <= s'.first && s'.last < hi;
    StartIsFirst(p, w, wordIds, s'.first);
    if s'.last + 1 < hi {
      EndIsLast(p, w, wordIds, s'.last);
    } else {
      SpecialFollows(wordIds, lo, hi, |w|);
    }
  }

  lemma EntityEnds(p: seq<Tag>, s: Span)
    requires IsEntity(p, s)
    ensures s.first <= s.last < |p| && !p[s.first].Out? && !p[s.last].Out? && Starts(p, s.first)
    ensures s.last + 1 < |p| ==> p[s.last + 1].Out? || p[s.last + 1].t != p[s.last].t || Starts(p, s.last + 1)
  {
    InsideOfEntity(p, s);
  }

  lemma StartIsFirst(p: seq<Tag>, w: seq<Tag>, wordIds: seq<Option<nat>>, i: nat)
    requires i < |p| == |wordIds| && wordIds[i].Some? && MirrorsAt(p, w, wordIds, i) && Starts(p, i)
    ensures FirstPiece(wordIds, i)
  {
  }

  lemma EndIsLast(p: seq<Tag>, w: seq<Tag>, wordIds: seq<Option<nat>>, i: nat)
    requires i + 1 < |p| == |wordIds| && wordIds[i].Some? && wordIds[i + 1].Some? && !p[i].Out?
    requires MirrorsAt(p, w, wordIds, i) && MirrorsAt(p, w, wordIds, i + 1)
    requires p[i + 1].Out? || p[i + 1].t != p[i].t || Starts(p, i + 1)
    ensures LastPiece(wordIds, i)
  {
  }

  lemma SpecialFollows(wordIds: seq<Option<nat>>, lo: nat, hi: nat, m: nat)
    requires Tiling(wordIds, lo, hi, m) && lo < hi
    ensures LastPiece(wordIds, hi - 1)
  {
  }

  lemma LoweredMiddle(p: seq<Tag>, w: seq<Tag>, wordIds: seq<Option<nat>>, lo: nat, hi: nat, s': Span, k: nat)
    requires Tiling(wordIds, lo, hi, |w|) && Mirrors(p, w, wordIds, lo, hi) && IsEntity(p, s')
    requires lo <= s'.first <= s'.last < hi && wordIds[s'.first].value < k <= wordIds[s'.last].value && k < |w|
    ensures !w[k].Out? && w[k].t == s'.t && !Starts(w, k)
  {
    var i := FirstOf(wordIds, lo, hi, |w|, k);
    BetweenWords(wordIds, lo, hi, |w|, s'.first, s'.last, i);
    InsideOfEntity(p, s');
    assert MirrorsAt(p, w, wordIds, i);
  }

  lemma LoweredIsEntity(p: seq<Tag>, w: seq<Tag>, wordIds: seq<Option<nat>>, lo: nat, hi: nat, s': Span)
    returns (s: Span)
    requires Tiling(wordIds, lo, hi, |w|) && Mirrors(p, w, wordIds, lo, hi) && IsEntity(p, s')
    ensures IsEntity(w, s) && Lifts(wordIds, s, s')
  {
    hide Tiling;
    PieceEntityBounds(p, w, wordIds, lo, hi, s');
    InsideOfEntity(p, s');
    assert MirrorsAt(p, w, wordIds, s'.first) && MirrorsAt(p, w, wordIds, s'.last);
    s := Span(s'.t, wordIds[s'.first].value, wordIds[s'.last].value);
    WordsRise(wordIds, lo, hi, |w|, s'.first, s'.last);
    forall k | s.first < k <= s.last
      ensures !w[k].Out? && w[k].t == s.t && !Starts(w, k)
    {
      LoweredMiddle(p, w, wordIds, lo, hi, s', k);
    }
    AfterLast(p, w, wordIds, lo, hi, s'.last);
    InsideOfEntity(w, s);
  }

  /** The first piece of a word after the word at a and not after the word at b lies in (a, b]. */
  lemma BetweenWords(wordIds: seq<Option<nat>>, lo: nat, hi: nat, m: nat, a: nat, b: nat, i: nat)
    requires Tiling(wordIds, lo, hi, m) && lo <= a <= b < hi && lo <= i < hi && FirstPiece(wordIds, i)
    requires wordIds[a].value < wordIds[i].value <= wordIds[b].value
    ensures a < i <= b
  {
    if i <= a {
      WordsRise(wordIds, lo, hi, m, i, a);
    } else if b < i {
      SameWordPieces(wordIds, lo, hi, m, b, i);
    }
  }

  /** Piece entities are exactly the word entities with words replaced by their pieces. */
  ghost predicate PreservesEntities(labels: seq<string>, wordIds: seq<Option<nat>>, m: nat)
    requires InRange(wordIds, labels) && m <= |labels|
  {
    var p, w := PieceTags(labels, wordIds), MetricTags(labels[..m]);
    && (forall s' :: s' in Spans(p) ==> exists s :: s in Spans(w) && Lifts(wordIds, s, s'))
    && (forall s :: s in Spans(w) ==> exists s' :: s' in Spans(p) && Lifts(wordIds, s, s'))
  }

  lemma LiftedExists(p: seq<Tag>, w: seq<Tag>, wordIds: seq<Option<nat>>, lo: nat, hi: nat, s: Span) returns (s': Span)
    requires Tiling(wordIds, lo, hi, |w|) && Mirrors(p, w, wordIds, lo, hi) && IsEntity(w, s)
    ensures IsEntity(p, s') && Lifts(wordIds, s, s')
  {
    hide Mirrors, Starts;
    var a := FirstOf(wordIds, lo, hi, |w|, s.first);
    var b := LastOf(wordIds, lo, hi, |w|, s.last);
    s' := Span(s.t, a, b);
    LiftedIsEntity(p, w, wordIds, lo, hi, s, s');
  }

  lemma MirroredPreserves(labels: seq<string>, wordIds: seq<Option<nat>>, lo: nat, hi: nat, m: nat)
    requires InRange(wordIds, labels) && Tiling(wordIds, lo, hi, m) && m <= |labels|
    requires Mirrors(PieceTags(labels, wordIds), MetricTags(labels[..m]), wordIds, lo, hi)
    ensures PreservesEntities(labels, wordIds, m)
  {
    hide Tiling, Mirrors, PieceTags, MetricTags, IsEntity, Spans, Lifts;
    var p, w := PieceTags(labels, wordIds), MetricTags(labels[..m]);
    SpansMeaning(p);
    SpansMeaning(w);
    forall s' | s' in Spans(p)
      ensures exists s :: s in Spans(w) && Lifts(wordIds, s, s')
    {
      var s := LoweredIsEntity(p, w, wordIds, lo, hi, s');
    }
    forall s | s in Spans(w)
      ensures exists s' :: s' in Spans(p) && Lifts(wordIds, s, s')
    {
      var s' := LiftedExists(p, w, wordIds, lo, hi, s);
    }
  }

  /** A later piece that reopens begins an entity no word entity accounts for. */
  lemma ReopeningBreaks(labels: seq<string>, wordIds: seq<Option<nat>>, lo: nat, hi: nat, m: nat, i: nat)
    requires InRange(wordIds, labels) && Tiling(wordIds, lo, hi, m) && m <= |labels|
    requires i < |wordIds| && wordIds[i].Some? && !FirstPiece(wordIds, i) && Reopens(labels[wordIds[i].value])
    ensures !PreservesEntities(labels, wordIds, m)
  {
    var p := PieceTags(labels, wordIds);
    PieceStarts(labels, wordIds, lo, hi, m, i);
    var s' := EntityAt(p, i);
    SpansMeaning(p);
    assert forall s :: !Lifts(wordIds, s, s');
  }

  /** Main result. For every tiling of the words before truncation, propagation keeps the entities
      exactly when every word whose label reopens an entity has a single piece. */
  lemma PropagationPreservesIff(labels: seq<string>, wordIds: seq<Option<nat>>, lo: nat, hi: nat, m: nat)
    requires InRange(wordIds, labels) && Tiling(wordIds, lo, hi, m) && m <= |labels|
    ensures PreservesEntities(labels, wordIds, m) <==> SinglePieceReopens(labels, wordIds)
  {
    if SinglePieceReopens(labels, wordIds) {
      PiecesMirror(labels, wordIds, lo, hi, m);
      MirroredPreserves(labels, wordIds, lo, hi, m);
    } else {
      var i :| 0 <= i < |wordIds| && wordIds[i].Some? && !FirstPiece(wordIds, i) && Reopens(labels[wordIds[i].value]);
      ReopeningBreaks(labels, wordIds, lo, hi, m, i);
    }
  }

  /** The label `LOC` on a word of two pieces: one entity becomes two. */
  lemma ReopeningSplits()
    ensures var labels, wordIds := ["LOC"], [Some(0), Some(0)];
            && InRange(wordIds, labels) && Tiling(wordIds, 0, 2, 1)
            && Spans(MetricTags(labels)) == [Span("LOC", 0, 0)]
            && Spans(PieceTags(labels, wordIds)) == [Span("LOC", 0, 0), Span("LOC", 1, 1)]
            && !PreservesEntities(labels, wordIds, 1)
  {
    var labels, wordIds := ["LOC"], [Some(0), Some(0)];
    assert Dash("LOC") == 3;
    assert !FirstPiece(wordIds, 1) && Reopens(labels[wordIds[1].value]);
    assert PieceLabel(labels, wordIds, 0) == PieceLabel(labels, wordIds, 1) == "LOC";
    hide Spans, PreservesEntities, FirstPiece, PieceLabel, Reopens;
    assert MetricTags(labels) == [Open("LOC")] && PieceTags(labels, wordIds) == [Open("LOC"), Open("LOC")];
    OpensAlone("LOC");
    OpensTwice("LOC");
    PropagationPreservesIff(labels, wordIds, 0, 2, 1);
  }

  lemma OpensAlone(t: string)
    ensures Spans([Open(t)]) == [Span(t, 0, 0)]
  {
    assert Closed([Open(t)], 1) == [];
  }

  lemma AcceptedNeverReopens(lab: string)
    requires Accepted(lab)
    ensures !Reopens(lab)
  {
    AcceptedReads(lab);
    if lab != "O" && lab[0] == 'B' {
      assert lab[..2] == [lab[0], lab[1]];
    }
  }

  /** Main result. For labels the parser accepts, propagation always keeps the entities. */
  lemma PropagationPreserves(labels: seq<string>, wordIds: seq<Option<nat>>, lo: nat, hi: nat, m: nat)
    requires InRange(wordIds, labels) && Tiling(wordIds, lo, hi, m) && m <= |labels| && AllAccepted(labels)
    ensures PreservesEntities(labels, wordIds, m)
  {
    forall i | 0 <= i < |wordIds| && wordIds[i].Some?
      ensures !Reopens(labels[wordIds[i].value])
    {
      AcceptedNeverReopens(labels[wordIds[i].value]);
    }
    PropagationPreservesIff(labels, wordIds, lo, hi, m);
  }

  // ---------------------------------------------------------------- reading word labels back

  /** The unmasked evaluation labels of pieces below n, in order. */
  function Unmasked(labels: seq<string>, wordIds: seq<Option<nat>>, n: nat): seq<string>
    requires InRange(wordIds, labels) && n <= |wordIds|
  {
    if n == 0 then []
    else Unmasked(labels, wordIds, n - 1) +
         (match WordAt(labels, wordIds, n - 1) case None => [] case Some(l) => [l])
  }

  lemma {:induction false} UnmaskedPrefix(labels: seq<string>, wordIds: seq<Option<nat>>, lo: nat, hi: nat, m: nat,
                                          n: nat)
    requires InRange(wordIds, labels) && Tiling(wordIds, lo, hi, m) && m <= |labels| && n <= |wordIds|
    ensures n <= lo ==> Unmasked(labels, wordIds, n) == []
    ensures lo < n <= hi ==> wordIds[n - 1].value < m
                             && Unmasked(labels, wordIds, n) == labels[..wordIds[n - 1].value + 1]
    ensures hi <= n ==> Unmasked(labels, wordIds, n) == labels[..m]
  {
    if n > 0 {
      UnmaskedPrefix(labels, wordIds, lo, hi, m, n - 1);
      if lo < n <= hi {
        WordsRise(wordIds, lo, hi, m, n - 1, hi - 1);
      }
    }
  }

  /** Main result. The unmasked labels are the labels of the covered words, in order. */
  lemma WordLabelsReadBack(labels: seq<string>, wordIds: seq<Option<nat>>, lo: nat, hi: nat, m: nat)
    requires InRange(wordIds, labels) && Tiling(wordIds, lo, hi, m) && m <= |labels|
    ensures Unmasked(labels, wordIds, |wordIds|) == labels[..m]
  {
    UnmaskedPrefix(labels, wordIds, lo, hi, m, |wordIds|);
  }
}
