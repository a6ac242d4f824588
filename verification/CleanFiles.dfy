/** The remediated files as files: what is written reads back, and is already clean. */
module CleanFiles {
  import opened Targets
  import opened Groups
  import opened SplitFiles
  import opened Remediation

  /** The three split files, each a sequence of lines. */
  datatype Files = Files(train: seq<string>, valid: seq<string>, test: seq<string>) {
    function At(s: Split): seq<string> {
      match s case Train => train case Valid => valid case Test => test
    }
  }

  function ReadAll(f: Files): Parsed {
    Parsed(Parse(f.train, Train).valid, Parse(f.valid, Valid).valid, Parse(f.test, Test).valid)
  }

  function WriteAll(p: Parsed): Files {
    Files(Print(p.train), Print(p.valid), Print(p.test))
  }

  function RenumberedAll(p: Parsed): Parsed {
    Parsed(Renumbered(p.train, Train), Renumbered(p.valid, Valid), Renumbered(p.test, Test))
  }

  lemma ReadAt(f: Files, s: Split)
    ensures ReadAll(f).At(s) == Parse(f.At(s), s).valid
  {
  }

  /** What the parser returns is what the remediation asks for. */
  lemma ReadWellFormed(f: Files)
    ensures WellFormed(ReadAll(f))
  {
    hide Parse;
    forall s: Split
      ensures WellFormedSplit(ReadAll(f).At(s), s)
    {
      ReadAt(f, s);
      ParsedIsPrintable(f.At(s), s);
    }
  }

  ghost predicate AllPrintable(xs: seq<Sentence>) {
    forall i :: 0 <= i < |xs| ==> PrintableSentence(xs[i])
  }

  lemma RetainedPrintable(f: Files, s: Split)
    ensures AllPrintable(Retained(ReadAll(f)).At(s))
  {
    hide Parse, FateOf, PrintableSentence, Retained;
    ReadWellFormed(f);
    ParsedIsPrintable(f.At(s), s);
    RetainedMembers(ReadAll(f), s);
    var xs, ss := Retained(ReadAll(f)).At(s), ReadAll(f).At(s);
    ReadAt(f, s);
    forall i | 0 <= i < |xs|
      ensures PrintableSentence(xs[i])
    {
      assert xs[i] in xs;
      InSplit(ReadAll(f), xs[i], s);
      var k :| 0 <= k < |ss| && ss[k] == xs[i];
    }
  }

  /** A renumbered sentence stands for the retained one at its position. */
  lemma Standing(q: Parsed, x: Sentence) returns (i: nat)
    requires x in RenumberedAll(q).All()
    ensures i < |q.At(x.split)| && x == Sentence(x.split, i, q.At(x.split)[i].tokens, q.At(x.split)[i].labels)
  {
    var r := RenumberedAll(q);
    if x in r.train {
      i :| 0 <= i < |r.train| && r.train[i] == x;
    } else if x in r.valid {
      i :| 0 <= i < |r.valid| && r.valid[i] == x;
    } else {
      i :| 0 <= i < |r.test| && r.test[i] == x;
    }
  }

  /** Renumbering keeps every retained sentence alone in its group. */
  lemma StandsAlone(p: Parsed, x: Sentence, y: Sentence)
    requires WellFormed(p) && x in RenumberedAll(Retained(p)).All() && y in RenumberedAll(Retained(p)).All()
             && x.tokens == y.tokens
    ensures x == y && !Invalid(x.labels)
  {
    hide FateOf, RenumberedAll, Retained, Invalid, WellFormed;
    var q := Retained(p);
    var i := Standing(q, x);
    var j := Standing(q, y);
    var a, b := q.At(x.split)[i], q.At(y.split)[j];
    assert a in q.At(x.split) && b in q.At(y.split);
    RetainedMembers(p, x.split);
    RetainedMembers(p, y.split);
    KeptUnique(p.All(), a, b);
    KeptIsValid(p.All(), a);
    RetainedWellFormed(p);
    SamePlace(q, x.split, i, j);
  }

  lemma SamePlace(q: Parsed, s: Split, i: nat, j: nat)
    requires WellFormed(q) && i < |q.At(s)| && j < |q.At(s)| && q.At(s)[i] == q.At(s)[j]
    ensures i == j
  {
    assert WellFormedSplit(q.At(s), s);
  }

  lemma RenumberedStays(p: Parsed)
    requires WellFormed(p)
    ensures Retained(RenumberedAll(Retained(p))) == RenumberedAll(Retained(p))
  {
    hide FateOf, RenumberedAll, Retained, WellFormed, KeptIn;
    var r := RenumberedAll(Retained(p));
    AllWithin(r);
    forall x | x in r.All()
      ensures FateOf(r.All(), x) == Kept
    {
      StandsAlone(p, x, x);
      forall y | y in r.All() && y.tokens == x.tokens
        ensures y == x
      {
        StandsAlone(p, x, y);
      }
      AloneIsKept(r.All(), x);
    }
    RetainedParts(r);
    KeepAll(r.train, r.All());
    KeepAll(r.valid, r.All());
    KeepAll(r.test, r.All());
  }

  /** Main result. For any three split files: the derived files parse without malformed lines into the
      retained sentences, renumbered, and remediating the derived files removes nothing. */
  lemma DerivedFilesAreClean(f: Files)
    ensures var q := Retained(ReadAll(f)); var derived := WriteAll(q);
            && ReadAll(derived) == RenumberedAll(q)
            && (forall s :: Parse(derived.At(s), s).malformed == [] && Parse(derived.At(s), s).rejected == 0)
            && Retained(ReadAll(derived)) == ReadAll(derived)
  {
    hide Retained, Print, Parse, Renumbered, AllPrintable;
    var q := Retained(ReadAll(f));
    var derived := WriteAll(q);
    ReadWellFormed(f);
    forall s
      ensures Parse(derived.At(s), s).malformed == [] && Parse(derived.At(s), s).rejected == 0
      ensures Parse(derived.At(s), s).valid == Renumbered(q.At(s), s)
    {
      RetainedPrintable(f, s);
      PrintsBack(q.At(s), s);
      match s case Train => case Valid => case Test =>
    }
    assert derived.At(Train) == derived.train && derived.At(Valid) == derived.valid && derived.At(Test) == derived.test;
    assert q.At(Train) == q.train && q.At(Valid) == q.valid && q.At(Test) == q.test;
    RenumberedStays(ReadAll(f));
  }

  lemma PrintsBack(xs: seq<Sentence>, s: Split)
    requires AllPrintable(xs)
    ensures var p := Parse(Print(xs), s); p.malformed == [] && p.rejected == 0 && p.valid == Renumbered(xs, s)
  {
    hide PrintableSentence;
    ParsePrinted(s, xs);
  }
}
