/** The parser and the printer of split files, a file being its sequence of lines. */
module SplitFiles {
  import opened Targets
  import opened Groups
  import Bio

  // ---------------------------------------------------------------- white space

  predicate Space(c: char) {
    || c == ' ' || '\t' <= c <= '\r' || '\U{1c}' <= c <= '\U{1f}' || c == '\U{85}' || c == '\U{a0}' || c == '\U{1680}'
    || '\U{2000}' <= c <= '\U{200a}' || c == '\U{2028}' || c == '\U{2029}' || c == '\U{202f}' || c == '\U{205f}'
      || c == '\U{3000}'
  }

  /** The 29 white-space characters. */
  lemma SpacesAre(c: char)
    ensures Space(c) <==>
              c in {'\t', '\n', '\U{b}', '\U{c}', '\r', '\U{1c}', '\U{1d}', '\U{1e}', '\U{1f}', ' ', '\U{85}', '\U{a0}',
                    '\U{1680}', '\U{2000}', '\U{2001}', '\U{2002}', '\U{2003}', '\U{2004}', '\U{2005}', '\U{2006}',
                    '\U{2007}', '\U{2008}', '\U{2009}', '\U{200a}', '\U{2028}', '\U{2029}', '\U{202f}', '\U{205f}',
                    '\U{3000}'}
  {
  }

  /** A nonempty string without white space. */
  predicate Word(w: string) {
    w != "" && forall i :: 0 <= i < |w| ==> !Space(w[i])
  }

  predicate AllWords(ws: seq<string>) {
    forall i :: 0 <= i < |ws| ==> Word(ws[i])
  }

  /** `lstrip` */
  function LeftStrip(s: string): (r: string)
    ensures r != "" ==> !Space(r[0])
    ensures s != "" && !Space(s[0]) ==> r == s
  {
    if s == "" || !Space(s[0]) then s else LeftStrip(s[1..])
  }

  function RightStrip(s: string): (r: string)
    ensures s != "" && !Space(s[|s| - 1]) ==> r == s
  {
    if s == "" || !Space(s[|s| - 1]) then s else RightStrip(s[..|s| - 1])
  }

  function Strip(s: string): (r: string)
    ensures s != "" && !Space(s[0]) && !Space(s[|s| - 1]) ==> r == s
  {
    RightStrip(LeftStrip(s))
  }

  /** Length of the word a string begins with. */
  function WordLength(s: string): (n: nat)
    ensures n <= |s| && (n < |s| ==> Space(s[n])) && forall i :: 0 <= i < n ==> !Space(s[i])
  {
    if s == "" || Space(s[0]) then 0
    else
      var n := WordLength(s[1..]);
      assert forall i :: 0 < i < |s| ==> s[i] == s[1..][i - 1];
      1 + n
  }

  /** `split()` */
  function Words(s: string): (ws: seq<string>)
    ensures AllWords(ws)
    decreases |s|
  {
    if s == "" then []
    else if Space(s[0]) then Words(s[1..])
    else
      var n := WordLength(s);
      assert Word(s[..n]);
      [s[..n]] + Words(s[n..])
  }

  /** `" ".join` */
  function Joined(ws: seq<string>): string {
    if ws == [] then "" else if |ws| == 1 then ws[0] else ws[0] + " " + Joined(ws[1..])
  }

  lemma WordEnds(w: string, rest: string)
    requires Word(w) && (rest == "" || Space(rest[0]))
    ensures WordLength(w + rest) == |w| && Words(w + rest) == [w] + Words(rest)
  {
    var s := w + rest;
    var n := WordLength(s);
    assert forall i :: 0 <= i < |w| ==> s[i] == w[i];
    assert rest != "" ==> s[|w|] == rest[0];
    assert s[0] == w[0] && s[..n] == w && s[n..] == rest;
  }

  lemma SpaceSkipped(s: string)
    ensures Words(" " + s) == Words(s)
  {
    assert (" " + s)[1..] == s;
  }

  /** Splitting undoes joining. */
  lemma {:induction false} WordsJoined(ws: seq<string>)
    requires AllWords(ws)
    ensures Words(Joined(ws)) == ws
  {
    hide Words, Word, WordLength;
    if ws == [] {
      NoWords();
    } else if |ws| == 1 {
      WordEnds(ws[0], "");
      NoWords();
      assert ws[0] + "" == ws[0];
    } else {
      var rest := Joined(ws[1..]);
      WordEnds(ws[0], " " + rest);
      SpaceSkipped(rest);
      WordsJoined(ws[1..]);
      assert ws[0] + (" " + rest) == Joined(ws);
    }
  }

  lemma NoWords()
    ensures Words("") == []
  {
  }

  lemma {:induction false} JoinedLast(ws: seq<string>, w: string)
    requires ws != []
    ensures Joined(ws + [w]) == Joined(ws) + " " + w
  {
    if |ws| > 1 {
      JoinedLast(ws[1..], w);
      assert (ws + [w])[1..] == ws[1..] + [w];
    } else {
      assert (ws + [w])[1..] == [w];
    }
  }

  lemma {:induction false} JoinedEnds(ws: seq<string>)
    requires ws != [] && AllWords(ws)
    ensures var s := Joined(ws); s != "" && !Space(s[0]) && !Space(s[|s| - 1])
  {
    if |ws| > 1 {
      JoinedEnds(ws[1..]);
    }
  }

  // ---------------------------------------------------------------- lines

  datatype Line = Blank | MissingToken | BadLabel | Entry(token: string, lab: string)

  function Read(raw: string): Line {
    var stripped := Strip(raw);
    if stripped == "" then Blank
    else
      var parts := Words(stripped);
      if |parts| < 2 then MissingToken
      else if !Bio.Accepted(parts[|parts| - 1]) then BadLabel
      else Entry(Joined(parts[..|parts| - 1]), parts[|parts| - 1])
  }

  /** A line of white space is blank, one word misses its token, and of several words the last is the label, which
      has to be accepted; the token is the others, joined by blanks. */
  lemma ReadMeans(raw: string)
    ensures Read(raw).Blank? <==> forall i :: 0 <= i < |raw| ==> Space(raw[i])
    ensures var parts := Words(Strip(raw));
            && (Read(raw).MissingToken? <==> |parts| == 1)
            && (Read(raw).BadLabel? <==> |parts| > 1 && !Bio.Accepted(parts[|parts| - 1]))
            && (Read(raw).Entry? <==> |parts| > 1 && Bio.Accepted(parts[|parts| - 1]))
            && (Read(raw).Entry? ==>
                  Read(raw).lab == parts[|parts| - 1] && Words(Read(raw).token) == parts[..|parts| - 1])
  {
    StripEmpty(raw);
    NoWords();
    var parts := Words(Strip(raw));
    if Strip(raw) != "" {
      SomeWord(raw);
      WordsJoined(parts[..|parts| - 1]);
    }
  }

  lemma {:induction false} LeftStripEmpty(s: string)
    ensures LeftStrip(s) == "" <==> forall i :: 0 <= i < |s| ==> Space(s[i])
  {
    if s != "" && Space(s[0]) {
      LeftStripEmpty(s[1..]);
      assert forall i :: 0 < i < |s| ==> s[i] == s[1..][i - 1];
    }
  }

  /** Stripping the right end keeps a first character that is no white space. */
  lemma {:induction false} RightStripKeeps(s: string)
    requires s != "" && !Space(s[0])
    ensures RightStrip(s) != "" && RightStrip(s)[0] == s[0]
  {
    if Space(s[|s| - 1]) {
      RightStripKeeps(s[..|s| - 1]);
    }
  }

  lemma StripEmpty(s: string)
    ensures Strip(s) == "" <==> forall i :: 0 <= i < |s| ==> Space(s[i])
  {
    LeftStripEmpty(s);
    if LeftStrip(s) != "" {
      RightStripKeeps(LeftStrip(s));
    }
  }

  lemma SomeWord(s: string)
    requires Strip(s) != ""
    ensures Words(Strip(s)) != []
  {
    var l := LeftStrip(s);
    if l != "" {
      RightStripKeeps(l);
    }
  }

  /** What the parser can return for a token and its label. */
  predicate Printable(token: string, lab: string) {
    Words(token) != [] && Joined(Words(token)) == token && Word(lab) && Bio.Accepted(lab)
  }

  lemma EntriesPrintable(raw: string)
    ensures Read(raw).Entry? ==> Printable(Read(raw).token, Read(raw).lab)
  {
    if Read(raw).Entry? {
      var parts := Words(Strip(raw));
      WordsJoined(parts[..|parts| - 1]);
    }
  }

  /** A printed line reads back. */
  lemma PrintedReads(token: string, lab: string)
    requires Printable(token, lab)
    ensures Read(token + " " + lab) == Entry(token, lab)
  {
    var ws := Words(token);
    JoinedLast(ws, lab);
    JoinedEnds(ws + [lab]);
    WordsJoined(ws + [lab]);
    assert (ws + [lab])[..|ws|] == ws;
  }

  // ---------------------------------------------------------------- the parser

  datatype Malformed = Malformed(line: nat, kind: Line)

  datatype Parser = Parser(valid: seq<Sentence>, tokens: seq<string>, labels: seq<string>, bad: bool,
                           rawBlocks: nat, parseable: nat, rejected: nat, malformed: seq<Malformed>)

  const START := Parser([], [], [], false, 0, 0, 0, [])

  function Flush(p: Parser, split: Split): Parser {
    if p.tokens == [] && !p.bad then p
    else
      var q := p.(tokens := [], labels := [], bad := false, rawBlocks := p.rawBlocks + 1);
      if p.bad then q.(rejected := p.rejected + 1)
      else q.(valid := p.valid + [Sentence(split, |p.valid|, p.tokens, p.labels)])
  }

  function Step(p: Parser, split: Split, number: nat, raw: string): Parser {
    match Read(raw)
    case Blank => Flush(p, split)
    case MissingToken => p.(bad := true, malformed := p.malformed + [Malformed(number, MissingToken)])
    case BadLabel => p.(bad := true, malformed := p.malformed + [Malformed(number, BadLabel)])
    case Entry(token, lab) => p.(parseable := p.parseable + 1, tokens := p.tokens + [token], labels := p.labels + [lab])
  }

  function Run(p: Parser, split: Split, lines: seq<string>): Parser {
    if lines == [] then p else Step(Run(p, split, lines[..|lines| - 1]), split, |lines|, lines[|lines| - 1])
  }

  function Parse(lines: seq<string>, split: Split): Parser {
    Flush(Run(START, split, lines), split)
  }

  method ParseSplit(lines: seq<string>, split: Split) returns (p: Parser)
    ensures p == Parse(lines, split)
  {
    hide Read;
    var valid: seq<Sentence>, tokens: seq<string>, labels: seq<string>, bad := [], [], [], false;
    var rawBlocks, parseable, rejected, malformed: seq<Malformed> := 0, 0, 0, [];
    for n := 0 to |lines|
      invariant Parser(valid, tokens, labels, bad, rawBlocks, parseable, rejected, malformed)
                == Run(START, split, lines[..n])
    {
      assert lines[..n + 1][..n] == lines[..n];
      var line := Read(lines[n]);
      if line.Blank? {
        if tokens != [] || bad {
          rawBlocks := rawBlocks + 1;
          if bad {
            rejected := rejected + 1;
          } else {
            valid := valid + [Sentence(split, |valid|, tokens, labels)];
          }
          tokens, labels, bad := [], [], false;
        }
      } else if line.Entry? {
        parseable, tokens, labels := parseable + 1, tokens + [line.token], labels + [line.lab];
      } else {
        bad, malformed := true, malformed + [Malformed(n + 1, line)];
      }
    }
    assert lines[..|lines|] == lines;
    p := Flush(Parser(valid, tokens, labels, bad, rawBlocks, parseable, rejected, malformed), split);
  }

  /** Every malformed line is reported, with its number and what is wrong with it, in order, and no other. */
  ghost predicate Reports(malformed: seq<Malformed>, lines: seq<string>) {
    && (forall i, j :: 0 <= i < j < |malformed| ==> malformed[i].line < malformed[j].line)
    && (forall i :: 0 <= i < |malformed| ==>
          var m := malformed[i];
          1 <= m.line <= |lines| && m.kind == Read(lines[m.line - 1]) && (m.kind.MissingToken? || m.kind.BadLabel?))
    && (forall n :: 0 <= n < |lines| && (Read(lines[n]).MissingToken? || Read(lines[n]).BadLabel?) ==>
          Malformed(n + 1, Read(lines[n])) in malformed)
  }

  lemma {:induction false} RunReports(lines: seq<string>, split: Split)
    ensures Reports(Run(START, split, lines).malformed, lines)
  {
    hide Read, Reports;
    if lines == [] {
      NothingToReport();
    } else {
      var front, z := lines[..|lines| - 1], lines[|lines| - 1];
      RunReports(front, split);
      ReportsMore(Run(START, split, front).malformed, front, z);
      assert lines == front + [z];
    }
  }

  lemma NothingToReport()
    ensures Reports([], [])
  {
  }

  lemma ReportsMore(malformed: seq<Malformed>, lines: seq<string>, z: string)
    requires Reports(malformed, lines)
    ensures if Read(z).MissingToken? || Read(z).BadLabel?
            then Reports(malformed + [Malformed(|lines| + 1, Read(z))], lines + [z])
            else Reports(malformed, lines + [z])
  {
    hide Read;
    var all := lines + [z];
    assert forall i :: 0 <= i < |lines| ==> all[i] == lines[i];
    var more := malformed + [Malformed(|lines| + 1, Read(z))];
    assert more[|malformed|] in more;
    assert forall m :: m in malformed ==> m in more;
  }

  /** Main result. The malformed lines of a file are reported completely, and the lines counted as parseable are
      the others that are not blank. */
  lemma ParseReports(lines: seq<string>, split: Split)
    ensures Reports(Parse(lines, split).malformed, lines)
    ensures Parse(lines, split).parseable + |Parse(lines, split).malformed| == NotBlank(lines)
  {
    RunReports(lines, split);
    LinesAddUp(lines, split);
  }

  function NotBlank(lines: seq<string>): nat {
    if lines == [] then 0 else NotBlank(lines[..|lines| - 1]) + if Read(lines[|lines| - 1]).Blank? then 0 else 1
  }

  lemma {:induction false} LinesAddUp(lines: seq<string>, split: Split)
    ensures var p := Run(START, split, lines); p.parseable + |p.malformed| == NotBlank(lines)
  {
    hide Read;
    if lines != [] {
      LinesAddUp(lines[..|lines| - 1], split);
    }
  }

  // ---------------------------------------------------------------- blocks

  /** Maximal stretches of lines that are not blank; the last one may still be open. */
  function Blocks(lines: seq<string>): (r: seq<seq<string>>)
    ensures r != []
  {
    if lines == [] then [[]]
    else
      var front, z := Blocks(lines[..|lines| - 1]), lines[|lines| - 1];
      var current := front[|front| - 1];
      if Read(z).Blank? then (if current == [] then front else front + [[]])
      else front[..|front| - 1] + [current + [z]]
  }

  predicate Good(block: seq<string>) {
    forall i :: 0 <= i < |block| ==> Read(block[i]).Entry?
  }

  function TokensIn(block: seq<string>): (r: seq<string>) {
    if block == [] then []
    else TokensIn(block[..|block| - 1]) + match Read(block[|block| - 1]) case Entry(t, _) => [t] case _ => []
  }

  function LabelsIn(block: seq<string>): (r: seq<string>) {
    if block == [] then []
    else LabelsIn(block[..|block| - 1]) + match Read(block[|block| - 1]) case Entry(_, l) => [l] case _ => []
  }

  /** The sentences of the good blocks, numbered in order. */
  function SentencesOf(blocks: seq<seq<string>>, split: Split): seq<Sentence> {
    if blocks == [] then []
    else
      var front, z := SentencesOf(blocks[..|blocks| - 1], split), blocks[|blocks| - 1];
      if z != [] && Good(z) then front + [Sentence(split, |front|, TokensIn(z), LabelsIn(z))] else front
  }

  function BadBlocks(blocks: seq<seq<string>>): nat {
    if blocks == [] then 0 else BadBlocks(blocks[..|blocks| - 1]) + if Good(blocks[|blocks| - 1]) then 0 else 1
  }

  function NonemptyBlocks(blocks: seq<seq<string>>): nat {
    if blocks == [] then 0 else NonemptyBlocks(blocks[..|blocks| - 1]) + if blocks[|blocks| - 1] == [] then 0 else 1
  }

  /** The parser state means the blocks: closed blocks are judged, the last one is in the buffers. */
  ghost predicate Means(p: Parser, split: Split, blocks: seq<seq<string>>) {
    && blocks != []
    && var front, z := blocks[..|blocks| - 1], blocks[|blocks| - 1];
    && p.valid == SentencesOf(front, split) && p.rejected == BadBlocks(front) && p.rawBlocks == NonemptyBlocks(front)
    && p.tokens == TokensIn(z) && p.labels == LabelsIn(z) && (p.bad <==> !Good(z))
  }

  lemma {:induction false} GoodTokens(block: seq<string>)
    requires Good(block)
    ensures |TokensIn(block)| == |LabelsIn(block)| == |block|
    ensures forall i :: 0 <= i < |block| ==> Read(block[i]) == Entry(TokensIn(block)[i], LabelsIn(block)[i])
  {
    hide Read;
    if block != [] {
      GoodTokens(block[..|block| - 1]);
    }
  }

  lemma GrownBlock(z: seq<string>, raw: string)
    ensures TokensIn(z + [raw]) == TokensIn(z) + match Read(raw) case Entry(t, _) => [t] case _ => []
    ensures LabelsIn(z + [raw]) == LabelsIn(z) + match Read(raw) case Entry(_, l) => [l] case _ => []
    ensures Good(z + [raw]) <==> Good(z) && Read(raw).Entry?
  {
    hide Read;
    assert (z + [raw])[..|z|] == z;
    if Good(z + [raw]) {
      forall i | 0 <= i < |z|
        ensures Read(z[i]).Entry?
      {
        assert (z + [raw])[i] == z[i];
      }
      assert (z + [raw])[|z|] == raw;
    }
  }

  lemma FlushMeans(p: Parser, split: Split, blocks: seq<seq<string>>)
    requires Means(p, split, blocks)
    ensures Means(Flush(p, split), split, if blocks[|blocks| - 1] == [] then blocks else blocks + [[]])
  {
    hide Read;
    var z := blocks[|blocks| - 1];
    if z != [] {
      if Good(z) {
        GoodTokens(z);
      }
      assert (blocks + [[]])[..|blocks|] == blocks;
    }
  }

  lemma StepMeans(p: Parser, split: Split, blocks: seq<seq<string>>, number: nat, raw: string)
    requires Means(p, split, blocks) && !Read(raw).Blank?
    ensures Means(Step(p, split, number, raw), split, blocks[..|blocks| - 1] + [blocks[|blocks| - 1] + [raw]])
  {
    hide Read;
    var front, z := blocks[..|blocks| - 1], blocks[|blocks| - 1];
    GrownBlock(z, raw);
    assert (front + [z + [raw]])[..|front|] == front;
  }

  lemma {:induction false} RunMeans(split: Split, lines: seq<string>)
    ensures Means(Run(START, split, lines), split, Blocks(lines))
  {
    hide Read, Flush;
    if lines != [] {
      var front, z := lines[..|lines| - 1], lines[|lines| - 1];
      RunMeans(split, front);
      var p := Run(START, split, front);
      if Read(z).Blank? {
        FlushMeans(p, split, Blocks(front));
      } else {
        StepMeans(p, split, Blocks(front), |lines|, z);
      }
    }
  }

  /** Main result. Parsing judges each block on its own: the good blocks are the sentences, in order
      and numbered; the others are excluded. */
  lemma ParseIsByBlock(lines: seq<string>, split: Split)
    ensures Parse(lines, split).valid == SentencesOf(Blocks(lines), split)
    ensures Parse(lines, split).rejected == BadBlocks(Blocks(lines))
    ensures Parse(lines, split).rawBlocks == NonemptyBlocks(Blocks(lines))
  {
    hide Read;
    RunMeans(split, lines);
    var blocks, p := Blocks(lines), Run(START, split, lines);
    FlushMeans(p, split, blocks);
    assert blocks[|blocks| - 1] != [] ==> (blocks + [[]])[..|blocks|] == blocks;
  }

  lemma {:induction false} BlocksCounted(blocks: seq<seq<string>>, split: Split)
    ensures NonemptyBlocks(blocks) == |SentencesOf(blocks, split)| + BadBlocks(blocks)
  {
    hide Read;
    if blocks != [] {
      BlocksCounted(blocks[..|blocks| - 1], split);
    }
  }

  /** Main result. On every input, raw blocks are valid sentences plus excluded blocks. */
  lemma BlocksConserved(lines: seq<string>, split: Split)
    ensures var p := Parse(lines, split); p.rawBlocks == |p.valid| + p.rejected
  {
    ParseIsByBlock(lines, split);
    BlocksCounted(Blocks(lines), split);
  }

  // ---------------------------------------------------------------- printing

  /** The first n token lines of a sentence. */
  function TokenLines(s: Sentence, n: nat): seq<string>
    requires n <= |s.tokens| && n <= |s.labels|
  {
    if n == 0 then [] else TokenLines(s, n - 1) + [s.tokens[n - 1] + " " + s.labels[n - 1]]
  }

  /** `zip` stops at the shorter list. */
  function PairCount(s: Sentence): nat {
    if |s.tokens| < |s.labels| then |s.tokens| else |s.labels|
  }

  function Print(ss: seq<Sentence>): seq<string> {
    if ss == [] then []
    else
      var z := ss[|ss| - 1];
      Print(ss[..|ss| - 1]) + TokenLines(z, PairCount(z)) + [""]
  }

  method WriteSplit(ss: seq<Sentence>) returns (lines: seq<string>)
    ensures lines == Print(ss)
  {
    lines := [];
    for k := 0 to |ss|
      invariant lines == Print(ss[..k])
    {
      assert ss[..k + 1][..k] == ss[..k];
      ghost var before := lines;
      for i := 0 to PairCount(ss[k])
        invariant lines == before + TokenLines(ss[k], i)
      {
        lines := lines + [ss[k].tokens[i] + " " + ss[k].labels[i]];
      }
      lines := lines + [""];
    }
    assert ss[..|ss|] == ss;
  }

  predicate PrintableSentence(s: Sentence) {
    && 0 < |s.tokens| == |s.labels|
    && forall i :: 0 <= i < |s.tokens| ==> Printable(s.tokens[i], s.labels[i])
  }

  /** The same sentences, numbered from zero in a split. */
  function Renumbered(ss: seq<Sentence>, split: Split): seq<Sentence> {
    seq(|ss|, i requires 0 <= i < |ss| => Sentence(split, i, ss[i].tokens, ss[i].labels))
  }

  function TokenCount(ss: seq<Sentence>): nat {
    if ss == [] then 0 else TokenCount(ss[..|ss| - 1]) + |ss[|ss| - 1].tokens|
  }

  /** The parser between sentences, having read ss. */
  function Between(ss: seq<Sentence>, split: Split): Parser {
    Parser(Renumbered(ss, split), [], [], false, |ss|, TokenCount(ss), 0, [])
  }

  lemma RunLast(split: Split, lines: seq<string>, line: string)
    ensures Run(START, split, lines + [line]) == Step(Run(START, split, lines), split, |lines| + 1, line)
  {
    assert (lines + [line])[..|lines|] == lines;
  }

  lemma {:induction false} TokenLinesRead(split: Split, before: seq<string>, p: Parser, s: Sentence, n: nat)
    requires PrintableSentence(s) && n <= |s.tokens| && Run(START, split, before) == p && p.tokens == []
             && p.labels == []
    ensures Run(START, split, before + TokenLines(s, n))
            == p.(tokens := s.tokens[..n], labels := s.labels[..n], parseable := p.parseable + n)
  {
    hide Read, Printable, Run;
    if n == 0 {
      assert before + TokenLines(s, 0) == before;
    } else {
      var line, lines := s.tokens[n - 1] + " " + s.labels[n - 1], before + TokenLines(s, n - 1);
      TokenLinesRead(split, before, p, s, n - 1);
      PrintedReads(s.tokens[n - 1], s.labels[n - 1]);
      RunLast(split, lines, line);
      assert before + TokenLines(s, n) == lines + [line];
      assert s.tokens[..n] == s.tokens[..n - 1] + [s.tokens[n - 1]]
             && s.labels[..n] == s.labels[..n - 1] + [s.labels[n - 1]];
    }
  }

  lemma BlankEnds(split: Split, lines: seq<string>, ss: seq<Sentence>)
    requires ss != [] && PrintableSentence(ss[|ss| - 1])
    requires var z, p := ss[|ss| - 1], Between(ss[..|ss| - 1], split);
             Run(START, split, lines)
               == p.(tokens := z.tokens, labels := z.labels, parseable := p.parseable + |z.tokens|)
    ensures Run(START, split, lines + [""]) == Between(ss, split)
  {
    hide Run, Printable;
    RunLast(split, lines, "");
    assert Read("").Blank?;
    var front, z := ss[..|ss| - 1], ss[|ss| - 1];
    assert Renumbered(ss, split) == Renumbered(front, split) + [Sentence(split, |front|, z.tokens, z.labels)];
  }

  lemma {:induction false} PrintedRuns(split: Split, ss: seq<Sentence>)
    requires forall i :: 0 <= i < |ss| ==> PrintableSentence(ss[i])
    ensures Run(START, split, Print(ss)) == Between(ss, split)
  {
    hide Read, PrintableSentence, Run;
    if ss == [] {
      NothingRead(split);
    } else {
      var front, z := ss[..|ss| - 1], ss[|ss| - 1];
      PrintedRuns(split, front);
      Balanced(z);
      TokenLinesRead(split, Print(front), Between(front, split), z, |z.tokens|);
      assert z.tokens[..|z.tokens|] == z.tokens && z.labels[..|z.labels|] == z.labels;
      BlankEnds(split, Print(front) + TokenLines(z, |z.tokens|), ss);
    }
  }

  lemma Balanced(s: Sentence)
    requires PrintableSentence(s)
    ensures |s.tokens| == |s.labels| && PairCount(s) == |s.tokens|
  {
  }

  lemma NothingRead(split: Split)
    ensures Run(START, split, []) == Between([], split)
  {
  }

  /** Main result. Parsing what was printed returns the same tokens and labels in order, with nothing
      malformed or excluded, for every list of printable sentences. */
  lemma ParsePrinted(split: Split, ss: seq<Sentence>)
    requires forall i :: 0 <= i < |ss| ==> PrintableSentence(ss[i])
    ensures Parse(Print(ss), split) == Between(ss, split)
  {
    PrintedRuns(split, ss);
  }

  predicate NthOf(s: Sentence, split: Split, i: nat) {
    PrintableSentence(s) && s.split == split && s.index == i
  }

  lemma {:induction false} BlockSentences(blocks: seq<seq<string>>, split: Split)
    ensures forall i :: 0 <= i < |SentencesOf(blocks, split)| ==> NthOf(SentencesOf(blocks, split)[i], split, i)
  {
    hide Read, PrintableSentence, Good, TokensIn, LabelsIn;
    if blocks != [] {
      var front, z := SentencesOf(blocks[..|blocks| - 1], split), blocks[|blocks| - 1];
      BlockSentences(blocks[..|blocks| - 1], split);
      assert forall i :: 0 <= i < |front| ==> NthOf(front[i], split, i);
      if z != [] && Good(z) {
        GoodIsPrintable(z, split, |front|);
        var ss := front + [Sentence(split, |front|, TokensIn(z), LabelsIn(z))];
        forall i | 0 <= i < |ss|
          ensures NthOf(ss[i], split, i)
        {
          assert i < |front| ==> ss[i] == front[i];
        }
      }
    }
  }

  lemma GoodIsPrintable(block: seq<string>, split: Split, index: nat)
    requires block != [] && Good(block)
    ensures PrintableSentence(Sentence(split, index, TokensIn(block), LabelsIn(block)))
  {
    hide Read, Printable;
    GoodTokens(block);
    forall i | 0 <= i < |block|
      ensures Printable(TokensIn(block)[i], LabelsIn(block)[i])
    {
      EntriesPrintable(block[i]);
    }
  }

  /** Main result. The printable sentences are exactly what the parser can return: it returns nothing
      else, and printing and parsing again returns each of its results unchanged. */
  lemma ParsedIsPrintable(lines: seq<string>, split: Split)
    ensures var ss := Parse(lines, split).valid;
            && (forall i :: 0 <= i < |ss| ==> PrintableSentence(ss[i]))
            && WellFormedSplit(ss, split)
            && Parse(Print(ss), split).valid == ss
  {
    hide PrintableSentence, Parse, Print, Blocks, SentencesOf;
    var ss := Parse(lines, split).valid;
    ParseIsByBlock(lines, split);
    BlockSentences(Blocks(lines), split);
    assert forall i :: 0 <= i < |ss| ==> NthOf(ss[i], split, i);
    ParsePrinted(split, ss);
    assert Renumbered(ss, split) == ss;
  }
}
