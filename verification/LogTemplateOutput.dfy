/** Reading back the output string itself: what its line ends do to the printed lines.

    Every printed line ends in a newline, except that the last one goes when the input
    did not end in one; and splitting drops one carriage return from each line. */
module LogTemplateOutput {

  import opened Common
  import opened Text
  import opened LogTemplate
  import opened LogTemplateText
  import opened LogTemplateRead

  // ---- printing and splitting lines ----

  function TrimAll(ls: seq<string>): (r: seq<string>)
    ensures |r| == |ls|
  {
    seq(|ls|, k requires 0 <= k < |ls| => TrimCR(ls[k]))
  }

  ghost predicate NoNewlines(ls: seq<string>) { forall k :: 0 <= k < |ls| ==> '\n' !in ls[k] }

  lemma {:induction false} UnlinesFront(ls: seq<string>)
    requires ls != []
    ensures Unlines(ls) == ls[0] + ['\n'] + Unlines(ls[1..])
  {
    var n := |ls| - 1;
    if n == 0 {
      assert ls[..0] == [] && ls[1..] == [];
    } else {
      BothEnds(ls);
      UnlinesFront(ls[..n]);
      UnlinesSnoc(ls[1..n], ls[n]);
      SeqAssoc(ls[0] + ['\n'], Unlines(ls[1..n]), ls[n] + ['\n']);
    }
  }

  lemma {:induction false} LineLengthIs(line: string, rest: string)
    requires '\n' !in line && (rest == "" || rest[0] == '\n')
    ensures LineLength(line + rest) == |line|
  {
    if line == "" {
      assert line + rest == rest;
    } else {
      assert (line + rest)[1..] == line[1..] + rest;
      LineLengthIs(line[1..], rest);
    }
  }

  lemma {:induction false} SplitFirstLine(line: string, rest: string)
    requires '\n' !in line
    ensures SplitLines(line + ['\n'] + rest) == [TrimCR(line)] + SplitLines(rest)
  {
    var s := line + (['\n'] + rest);
    LineLengthIs(line, ['\n'] + rest);
    assert s == line + ['\n'] + rest && s[..|line|] == line && s[|line| + 1..] == rest;
  }

  lemma {:induction false} TrimAllAppend(a: seq<string>, b: seq<string>)
    ensures TrimAll(a + b) == TrimAll(a) + TrimAll(b)
    ensures NoNewlines(a) && NoNewlines(b) ==> NoNewlines(a + b)
  {
  }

  /** A last line without a newline counts when it has a character. */
  function OpenLine(open: string): seq<string> { if open == "" then [] else [TrimCR(open)] }

  /** Printed lines split into the same lines, each without a final carriage return. */
  lemma {:induction false} SplitsBack(ls: seq<string>, open: string)
    requires NoNewlines(ls) && '\n' !in open
    ensures SplitLines(Unlines(ls) + open) == TrimAll(ls) + OpenLine(open)
  {
    if ls == [] {
      assert Unlines(ls) + open == open;
      if open != "" {
        LineLengthIs(open, "");
        assert open + "" == open && open[..|open|] == open;
      }
    } else {
      var rest := Unlines(ls[1..]) + open;
      UnlinesFront(ls);
      SeqAssoc(ls[0] + ['\n'], Unlines(ls[1..]), open);
      SplitFirstLine(ls[0], rest);
      SplitsBack(ls[1..], open);
      HeadAndRest(ls);
      TrimAllAppend([ls[0]], ls[1..]);
      SeqAssoc([TrimCR(ls[0])], TrimAll(ls[1..]), OpenLine(open));
    }
  }

  lemma {:induction false} HeadAndRest(ls: seq<string>)
    requires ls != []
    ensures ls == [ls[0]] + ls[1..] && TrimAll([ls[0]]) == [TrimCR(ls[0])]
  {
  }

  // ---- the input's lines ----

  lemma {:induction false} LinesHaveNoNewline(s: string)
    ensures NoNewlines(SplitLines(s))
  {
    if s != "" {
      var n := LineLength(s);
      assert '\n' !in TrimCR(s[..n]);
      if n < |s| {
        LinesHaveNoNewline(s[n + 1..]);
      }
    }
  }

  /** The input's last line is a lone carriage return with no newline after it. */
  predicate EndsInBareCR(s: string) {
    s != "" && s[|s| - 1] == '\r' && (|s| == 1 || s[|s| - 2] == '\n')
  }

  predicate EndsOpen(s: string) { s == "" || s[|s| - 1] != '\n' }

  /** Behind a newline the end of a text is the end of the rest. */
  lemma {:induction false} EndsAlike(s: string, n: nat)
    requires 0 < n <= |s| && s[n - 1] == '\n' && EndsOpen(s)
    ensures n < |s| && EndsOpen(s[n..]) && (EndsInBareCR(s[n..]) <==> EndsInBareCR(s))
  {
  }

  lemma {:induction false} OpenLastLine(s: string)
    requires s != "" && EndsOpen(s)
    ensures SplitLines(s) != []
    ensures SplitLines(s)[|SplitLines(s)| - 1] == "" <==> EndsInBareCR(s)
  {
    var n := LineLength(s);
    if n < |s| {
      EndsAlike(s, n + 1);
      OpenLastLine(s[n + 1..]);
    } else {
      assert s[..n] == s;
      assert |s| > 1 ==> s[|s| - 2] in s;
    }
  }

  // ---- carriage returns do not matter to tokens ----

  lemma {:induction false} WordLengthGrows(s: string, w: char)
    requires IsWhite(w)
    ensures WordLength(s + [w]) == WordLength(s)
  {
    if s != "" {
      assert (s + [w])[1..] == s[1..] + [w];
      WordLengthGrows(s[1..], w);
    } else {
      assert (s + [w])[0] == w;
    }
  }

  lemma {:induction false} FieldsIgnoreWhite(s: string, w: char)
    requires IsWhite(w)
    ensures Fields(s + [w]) == Fields(s)
    decreases |s|
  {
    var n := WordLength(s);
    if s == "" {
      assert (s + [w])[1..] == "" && (s + [w])[0] == w;
    } else if IsWhite(s[0]) {
      assert (s + [w])[1..] == s[1..] + [w];
      FieldsIgnoreWhite(s[1..], w);
    } else {
      WordLengthGrows(s, w);
      assert n > 0 && (s + [w])[..n] == s[..n] && (s + [w])[n..] == s[n..] + [w];
      FieldsIgnoreWhite(s[n..], w);
    }
  }

  lemma {:induction false} TrimKeepsFields(s: string)
    ensures Fields(TrimCR(s)) == Fields(s)
  {
    if s != "" && s[|s| - 1] == '\r' {
      assert s == TrimCR(s) + ['\r'];
      FieldsIgnoreWhite(TrimCR(s), '\r');
    }
  }

  // ---- the printed lines ----

  ghost function TrimSeg(g: Seg): Seg { if g.Verbatim? then Verbatim(TrimCR(g.line), g.toks) else g }

  ghost function TrimSegs(segs: seq<Seg>): (r: seq<Seg>)
    ensures |r| == |segs|
  {
    seq(|segs|, k requires 0 <= k < |segs| => TrimSeg(segs[k]))
  }

  lemma {:induction false} TrimSegsSnoc(segs: seq<Seg>)
    requires segs != []
    ensures TrimSegs(segs) == TrimSegs(segs[..|segs| - 1]) + [TrimSeg(segs[|segs| - 1])]
  {
  }

  /** A text that starts with no newline and ends in neither line-end character. */
  ghost predicate Solid(s: string) { s != "" && '\n' !in s && s[|s| - 1] != '\r' }

  lemma {:induction false} JoinIsSolid(toks: seq<string>)
    requires toks != [] && forall i :: 0 <= i < |toks| ==> IsToken(toks[i])
    ensures Solid(JoinOn(toks, ' '))
  {
    assert IsToken(toks[0]);
    if |toks| > 1 {
      JoinIsSolid(toks[1..]);
    }
  }

  lemma {:induction false} JoinHasNoNewline(toks: seq<string>)
    requires forall i :: 0 <= i < |toks| ==> '\n' !in toks[i]
    ensures '\n' !in JoinOn(toks, ' ')
  {
    if |toks| > 1 {
      JoinHasNoNewline(toks[1..]);
    }
  }

  lemma {:induction false} HeaderIsSolid(id: nat, names: seq<string>, n: nat)
    requires forall i :: 0 <= i < |names| ==> '\n' !in names[i]
    ensures Solid(HeaderLine(id, names, n))
  {
    var s := HeaderLine(id, names, n);
    JoinHasNoNewline(names);
    assert forall d :: d in Itoa(id) || d in Itoa(n) ==> IsDigit(d);
    assert s[|s| - 1] == HEADER_END[|HEADER_END| - 1];
  }

  /** Lines whose trimming changes nothing but verbatim ones. */
  ghost predicate Printable(g: Seg) {
    match g
    case Verbatim(line, toks) => '\n' !in line
    case Template(_, slots, rows) =>
      && rows != [] && (forall p :: 0 <= p < |slots| ==> '\n' !in slots[p].tok)
      && (forall k :: 0 <= k < |rows| ==> rows[k] != []) && TokenRows(rows)
  }

  lemma {:induction false} NamesHaveNoNewline(slots: seq<Slot>)
    requires forall p :: 0 <= p < |slots| ==> '\n' !in slots[p].tok
    ensures forall p :: 0 <= p < |slots| ==> '\n' !in Names(slots)[p]
  {
  }

  lemma {:induction false} SegLinesTrim(g: Seg)
    requires Printable(g)
    ensures NoNewlines(SegLines(g)) && TrimAll(SegLines(g)) == SegLines(TrimSeg(g)) && SegLines(g) != []
    ensures SegLines(g)[|SegLines(g)| - 1] == "" ==> g.Verbatim?
  {
    if g.Template? {
      NamesHaveNoNewline(g.slots);
      HeaderIsSolid(g.id, Names(g.slots), |g.rows|);
      forall k | 0 <= k < |g.rows| ensures Solid(RowLines(g.rows)[k]) {
        JoinIsSolid(g.rows[k]);
      }
      assert forall k :: 0 <= k < |SegLines(g)| ==> Solid(SegLines(g)[k]);
    }
  }

  lemma {:induction false} AllLinesTrim(segs: seq<Seg>)
    requires forall k :: 0 <= k < |segs| ==> Printable(segs[k])
    ensures NoNewlines(AllLines(segs)) && TrimAll(AllLines(segs)) == AllLines(TrimSegs(segs))
  {
    if segs != [] {
      var init, g := segs[..|segs| - 1], segs[|segs| - 1];
      AllLinesTrim(init);
      SegLinesTrim(g);
      TrimAllAppend(AllLines(init), SegLines(g));
      TrimSegsSnoc(segs);
      AllLinesSnoc(TrimSegs(init), TrimSeg(g));
    }
  }

  lemma {:induction false} TrimmedExpand(segs: seq<Seg>)
    ensures ExpandAll(TrimSegs(segs)) == ExpandAll(segs)
  {
    if segs != [] {
      var init, g := segs[..|segs| - 1], segs[|segs| - 1];
      TrimmedExpand(init);
      TrimSegsSnoc(segs);
      ExpandSnoc(TrimSegs(init), TrimSeg(g));
    }
  }

  // ---- mined lines ----

  /** No line has a header's looks, not even without a final carriage return. */
  ghost predicate PlainText(lines: seq<string>) {
    NoNewlines(lines) && NoLookalikes(lines) && NoLookalikes(TrimAll(lines))
  }

  lemma {:induction false} MinedIsPrintable(cfg: Config, lines: seq<string>, k: nat)
    requires PlainText(lines) && k < |Mined(cfg, lines)|
    ensures Printable(Mined(cfg, lines)[k]) && Readable(TrimSeg(Mined(cfg, lines)[k]))
    ensures Mined(cfg, lines)[k].Verbatim? ==> Mined(cfg, lines)[k].toks == Fields(Mined(cfg, lines)[k].line)
  {
    var g := Mined(cfg, lines)[k];
    MinedIsReadable(cfg, lines, k);
    match g
    case Verbatim(line, toks) =>
      var i :| 0 <= i < |lines| && lines[i] == line;
      assert TrimAll(lines)[i] == TrimCR(line);
      TrimKeepsFields(line);
    case Template(_, _, _) =>
      TemplatesAreExact(cfg, lines, k);
      var a, b :| TemplateOver(cfg, Tokenized(lines), g, a, b);
      TemplateIsPrintable(cfg, lines, g, a, b);
  }

  lemma {:induction false} TemplateIsPrintable(cfg: Config, lines: seq<string>, g: Seg, a: nat, b: nat)
    requires TemplateOver(cfg, Tokenized(lines), g, a, b) && Readable(g)
    ensures Printable(g)
  {
    forall p | 0 <= p < |g.slots| ensures '\n' !in g.slots[p].tok {
      MergedIs(Tokenized(lines), a, b, p);
      assert IsToken(g.slots[p].tok);
    }
    assert |g.rows| == b - a > 0;
    assert Wilds(g.slots) > 0;
  }

  lemma {:induction false} TrimmedClear(segs: seq<Seg>)
    ensures AllClear(TrimSegs(segs)) <==> AllClear(segs)
  {
    if AllClear(TrimSegs(segs)) {
      forall k | 0 <= k < |segs| ensures Clear(segs[k]) {
        assert Clear(TrimSegs(segs)[k]);
      }
    }
  }

  lemma {:induction false} TrimmedReads(cfg: Config, lines: seq<string>)
    requires PlainText(lines)
    ensures var ls := AllLines(Mined(cfg, lines));
            && NoNewlines(ls)
            && Read(TrimAll(ls)) == if StarFree(cfg, lines) then Some(Tokenized(lines)) else None
  {
    var segs := Mined(cfg, lines);
    forall k | 0 <= k < |segs| ensures Printable(segs[k]) && Readable(TrimSegs(segs)[k]) {
      MinedIsPrintable(cfg, lines, k);
    }
    AllLinesTrim(segs);
    SegsRead(TrimSegs(segs));
    TrimmedExpand(segs);
    TrimmedClear(segs);
    ClearIff(cfg, lines);
    Lossless(cfg, lines);
  }

  /** The loop from line i on passes through line n. */
  lemma {:induction false} MineReaches(cfg: Config, log: Log, i: nat, m: Miner, n: nat) returns (mid: Miner)
    requires MinerOver(log, m) && i <= n <= |log.lines|
    ensures MinerOver(log, mid) && MineFrom(cfg, log, i, m) == MineFrom(cfg, log, n, mid)
    decreases n - i
  {
    mid := m;
    if i < n {
      mid := MineReaches(cfg, log, i + 1, Step(cfg, log, m, i), n);
    }
  }

  lemma {:induction false} EndsBlank(cfg: Config, lines: seq<string>)
    requires lines != [] && Fields(lines[|lines| - 1]) == []
    ensures var segs := Mined(cfg, lines); segs != [] && segs[|segs| - 1] == Verbatim(lines[|lines| - 1], [])
  {
    var log := Log(lines, Tokenized(lines));
    var mid := MineReaches(cfg, log, 0, NOTHING, |lines| - 1);
    var last := Step(cfg, log, mid, |lines| - 1);
    assert MineFrom(cfg, log, |lines|, last) == last;
    assert last.active.None? && last.segs[|last.segs| - 1] == Verbatim(lines[|lines| - 1], []);
  }

  lemma {:induction false} LastOfBoth(a: seq<string>, b: seq<string>)
    requires b != []
    ensures (a + b)[|a + b| - 1] == b[|b| - 1]
  {
  }

  lemma {:induction false} LastLineIs(segs: seq<Seg>)
    requires segs != [] && SegLines(segs[|segs| - 1]) != []
    ensures var ls, own := AllLines(segs), SegLines(segs[|segs| - 1]); ls != [] && ls[|ls| - 1] == own[|own| - 1]
  {
    var init, own := AllLines(segs[..|segs| - 1]), SegLines(segs[|segs| - 1]);
    assert AllLines(segs) == init + own;
    LastOfBoth(init, own);
  }

  lemma {:induction false} LastExpandsTo(segs: seq<Seg>)
    requires segs != [] && segs[|segs| - 1].Verbatim?
    ensures ExpandAll(segs) != [] && ExpandAll(segs)[|ExpandAll(segs)| - 1] == segs[|segs| - 1].toks
  {
  }

  lemma {:induction false} NothingExpandsToNothing()
    ensures ExpandAll([]) == []
  {
  }

  lemma {:induction false} SomethingMined(cfg: Config, lines: seq<string>)
    requires lines != []
    ensures Mined(cfg, lines) != []
  {
    Lossless(cfg, lines);
    NothingExpandsToNothing();
  }

  lemma {:induction false} LastSegLine(cfg: Config, lines: seq<string>)
    requires PlainText(lines) && lines != []
    ensures var segs, ls := Mined(cfg, lines), AllLines(Mined(cfg, lines));
            && segs != [] && ls != []
            && (ls[|ls| - 1] == "" <==> segs[|segs| - 1].Verbatim? && segs[|segs| - 1].line == "")
  {
    var segs := Mined(cfg, lines);
    SomethingMined(cfg, lines);
    MinedIsPrintable(cfg, lines, |segs| - 1);
    SegLinesTrim(segs[|segs| - 1]);
    LastLineIs(segs);
  }

  /** A last line with tokens is not printed as an empty one. */
  lemma {:induction false} FullLineIsNotEmpty(cfg: Config, lines: seq<string>)
    requires PlainText(lines) && lines != [] && Fields(lines[|lines| - 1]) != []
    ensures var segs := Mined(cfg, lines);
            segs != [] && !(segs[|segs| - 1].Verbatim? && segs[|segs| - 1].line == "")
  {
    var segs := Mined(cfg, lines);
    SomethingMined(cfg, lines);
    MinedIsPrintable(cfg, lines, |segs| - 1);
    if segs[|segs| - 1].Verbatim? {
      Lossless(cfg, lines);
      LastExpandsTo(segs);
    }
  }

  /** The last printed line is empty exactly when the last line is. */
  lemma {:induction false} LastPrinted(cfg: Config, lines: seq<string>)
    requires PlainText(lines) && lines != []
    ensures var ls := AllLines(Mined(cfg, lines)); ls != [] && (ls[|ls| - 1] == "" <==> lines[|lines| - 1] == "")
  {
    LastSegLine(cfg, lines);
    if Fields(lines[|lines| - 1]) == [] {
      EndsBlank(cfg, lines);
    } else {
      FullLineIsNotEmpty(cfg, lines);
    }
  }

  // ---- the output string ----

  lemma {:induction false} VerbatimReads(ls: seq<string>)
    requires NoLookalikes(ls)
    ensures Read(ls) == Some(Tokenized(ls))
  {
    if ls != [] {
      VerbatimReads(ls[1..]);
      assert Tokenized(ls) == [Fields(ls[0])] + Tokenized(ls[1..]);
    }
  }

  /** How the printed text splits once its final newline is dropped or kept. */
  lemma {:induction false} ResultSplits(ls: seq<string>, content: string)
    requires ls != [] && NoNewlines(ls)
    ensures var lines := SplitLines(DropFinalNewline(Unlines(ls), content));
            lines == if EndsOpen(content) && ls[|ls| - 1] == "" then TrimAll(ls[..|ls| - 1]) else TrimAll(ls)
  {
    var init, last := ls[..|ls| - 1], ls[|ls| - 1];
    if EndsOpen(content) {
      assert Unlines(ls) == Unlines(init) + last + ['\n'];
      assert DropFinalNewline(Unlines(ls), content) == Unlines(init) + last;
      SplitsBack(init, last);
      assert ls == init + [last];
      TrimAllAppend(init, [last]);
      assert TrimAll([last]) == [TrimCR(last)];
    } else {
      SplitsBack(ls, "");
      assert Unlines(ls) + "" == Unlines(ls);
    }
  }

  /** The guard of the fallback: the mined text is no shorter than the content. */
  ghost predicate KeptWhole(cfg: Config, content: string) {
    |DropFinalNewline(Printed(Mined(cfg, SplitLines(content))), content)| >= |content|
  }

  /** Reading the output gives every input line's tokens, in order, if and only if the
      content is kept whole, or neither ends in a bare carriage return (its line loses
      the newline that would open it) nor has "<*>" all down a collapsed run. */
  lemma {:induction false} OutputReadsBackIff(cfg: Config, content: string)
    requires var lines := SplitLines(content); NoLookalikes(lines) && NoLookalikes(TrimAll(lines))
    ensures Read(SplitLines(OutputOf(cfg, content))) == Some(Tokenized(SplitLines(content)))
       <==> KeptWhole(cfg, content) || (!EndsInBareCR(content) && StarFree(cfg, SplitLines(content)))
  {
    var lines := SplitLines(content);
    var ls := AllLines(Mined(cfg, lines));
    LinesHaveNoNewline(content);
    if KeptWhole(cfg, content) {
      VerbatimReads(lines);
    } else {
      TrimmedReads(cfg, lines);
      LastPrinted(cfg, lines);
      ResultSplits(ls, content);
      if EndsOpen(content) {
        OpenLastLine(content);
        if EndsInBareCR(content) {
          LostLastLine(cfg, lines);
        }
      }
    }
  }

  lemma {:induction false} LastNewlineDrops(ls: seq<string>, content: string)
    requires ls != [] && content != ""
    ensures var out := DropFinalNewline(Unlines(ls), content);
            Unlines(ls) == if content[|content| - 1] == '\n' then out else out + ['\n']
  {
    var text := Unlines(ls[..|ls| - 1]) + ls[|ls| - 1];
    assert Unlines(ls) == text + ['\n'];
  }

  lemma {:induction false} SomethingPrinted(cfg: Config, lines: seq<string>)
    requires lines != []
    ensures AllLines(Mined(cfg, lines)) != []
  {
    SomethingMined(cfg, lines);
    LastLineIs(Mined(cfg, lines));
  }

  /** The output is every printed line with its newline, but for the last newline when
      the input has none at its end. */
  lemma {:induction false} FinalNewlineStays(cfg: Config, content: string)
    requires content != "" && !KeptWhole(cfg, content)
    ensures var ls, out := AllLines(Mined(cfg, SplitLines(content))), OutputOf(cfg, content);
            ls != [] && Unlines(ls) == if content[|content| - 1] == '\n' then out else out + ['\n']
  {
    SomethingPrinted(cfg, SplitLines(content));
    LastNewlineDrops(AllLines(Mined(cfg, SplitLines(content))), content);
  }

  lemma {:induction false} LostLastLine(cfg: Config, lines: seq<string>)
    requires PlainText(lines) && lines != [] && lines[|lines| - 1] == ""
    ensures var ls := AllLines(Mined(cfg, lines)); ls != [] && Read(TrimAll(ls[..|ls| - 1])) != Some(Tokenized(lines))
  {
    var segs := Mined(cfg, lines);
    EndsBlank(cfg, lines);
    var init := segs[..|segs| - 1];
    LastPrinted(cfg, lines);
    forall k | 0 <= k < |init| ensures Printable(init[k]) && Readable(TrimSegs(init)[k]) {
      MinedIsPrintable(cfg, lines, k);
    }
    assert AllLines(segs) == AllLines(init) + [""];
    assert AllLines(segs)[..|AllLines(segs)| - 1] == AllLines(init);
    AllLinesTrim(init);
    SegsRead(TrimSegs(init));
    TrimmedExpand(init);
    Lossless(cfg, lines);
    assert |ExpandAll(segs)| == |ExpandAll(init)| + 1;
  }

  // ---- a text that loses its last line ----

  function Newlines(n: nat): (s: string)
    ensures |s| == n && forall i :: 0 <= i < n ==> s[i] == '\n'
  {
    if n == 0 then "" else ['\n'] + Newlines(n - 1)
  }

  ghost predicate AllEmpty(ls: seq<string>) { forall k :: 0 <= k < |ls| ==> ls[k] == "" }

  lemma {:induction false} BlankTailSplits(n: nat)
    ensures |SplitLines(Newlines(n) + "\r")| == n + 1 && AllEmpty(SplitLines(Newlines(n) + "\r"))
  {
    var s := Newlines(n) + "\r";
    if n > 0 {
      assert s == "" + ['\n'] + (Newlines(n - 1) + "\r");
      SplitFirstLine("", Newlines(n - 1) + "\r");
      BlankTailSplits(n - 1);
    } else {
      LineLengthIs("\r", "");
      assert s == "\r" && "\r" + "" == s && s[..1] == s;
    }
  }

  /** Nothing but n empty lines emitted, and no run begun. */
  ghost predicate OnlyBlanks(m: Miner, n: nat) {
    m.active.None? && AllEmpty(AllLines(m.segs)) && |AllLines(m.segs)| == n
  }

  lemma {:induction false} BlankStep(cfg: Config, log: Log, i: nat, m: Miner)
    requires Sized(log) && log.toks == Tokenized(log.lines) && i < |log.lines| && log.lines[i] == "" && OnlyBlanks(m, i)
    ensures OnlyBlanks(Step(cfg, log, m, i), i + 1)
  {
    assert Fields("") == [] && log.toks[i] == [];
    AllLinesSnoc(m.segs, Verbatim("", []));
  }

  /** Blank lines are printed as they are. */
  lemma {:induction false} BlanksMined(cfg: Config, log: Log, i: nat, m: Miner)
    requires Sized(log) && log.toks == Tokenized(log.lines) && AllEmpty(log.lines) && i <= |log.lines|
    requires OnlyBlanks(m, i)
    ensures OnlyBlanks(MineFrom(cfg, log, i, m), |log.lines|)
    decreases |log.lines| - i
  {
    if i < |log.lines| {
      BlankStep(cfg, log, i, m);
      BlanksMined(cfg, log, i + 1, Step(cfg, log, m, i));
    }
  }

  lemma {:induction false} EmptyLinesLength(ls: seq<string>)
    requires AllEmpty(ls)
    ensures |Unlines(ls)| == |ls| && (ls != [] ==> Unlines(ls)[|ls| - 1] == '\n')
  {
    if ls != [] {
      EmptyLinesLength(ls[..|ls| - 1]);
    }
  }

  /** Newlines and a final bare carriage return, however many: the last blank line is lost. */
  lemma {:induction false} BareCRIsLost(cfg: Config, n: nat)
    ensures var content := Newlines(n) + "\r";
            Read(SplitLines(OutputOf(cfg, content))) != Some(Tokenized(SplitLines(content)))
  {
    var content := Newlines(n) + "\r";
    var lines := SplitLines(content);
    BlankTailSplits(n);
    var log := Log(lines, Tokenized(lines));
    BlanksMined(cfg, log, 0, NOTHING);
    EmptyLinesLength(AllLines(Mined(cfg, lines)));
    assert |OutputOf(cfg, content)| < |content|;
    BlanksArePlain(lines);
    assert n > 0 ==> content[n - 1] == '\n';
    OutputReadsBackIff(cfg, content);
  }

  lemma {:induction false} BlanksArePlain(lines: seq<string>)
    requires AllEmpty(lines)
    ensures NoLookalikes(lines) && NoLookalikes(TrimAll(lines))
  {
    assert !LooksLikeHeader("");
    assert AllEmpty(TrimAll(lines));
  }
}
