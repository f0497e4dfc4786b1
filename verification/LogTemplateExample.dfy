/** Two logs that collapse under the default configuration and do not read back.

    One has "<*>" in the same place of every line, the other a line that looks like the
    header of a template without rows. */
module LogTemplateExample {

  import opened Common
  import opened Text
  import opened LogTemplate
  import opened LogTemplateText
  import opened LogTemplateRead
  import opened LogTemplateOutput

  /** The default knobs, 0.4 as two fifths. */
  const DEFAULT := Config(20, 3, (matches, total) => 5 * matches >= 2 * total, 2)

  const COUNT: nat := 20

  function Toks(w: string, i: nat): seq<string> { [w, "k", if i == 0 then "x" else "y"] }

  /** Twenty lines: a word, a constant, and something that varies once. */
  function Lines(w: string): (r: seq<string>)
    ensures |r| == COUNT
  {
    seq(COUNT, i requires 0 <= i < COUNT => JoinOn(Toks(w, i), ' '))
  }

  function Slots(w: string): seq<Slot> { [Slot(w, false), Slot("k", false), Slot("x", true)] }

  lemma {:induction false} ToksAre(w: string, i: nat)
    requires IsToken(w)
    ensures Fields(JoinOn(Toks(w, i), ' ')) == Toks(w, i) && Solid(JoinOn(Toks(w, i), ' '))
    ensures |JoinOn(Toks(w, i), ' ')| == |w| + 4 && JoinOn(Toks(w, i), ' ')[0] == w[0]
  {
    var toks := Toks(w, i);
    assert IsToken(toks[1]) && IsToken(toks[2]);
    FieldsJoin(toks);
    JoinIsSolid(toks);
    assert toks[1..] == ["k", toks[2]] && toks[1..][1..] == [toks[2]];
    assert JoinOn(toks[1..][1..], ' ') == toks[2];
    assert JoinOn(toks[1..], ' ') == "k" + ([' '] + toks[2]);
    assert JoinOn(toks, ' ') == w + ([' '] + JoinOn(toks[1..], ' '));
  }

  // ---- mining ----

  /** A log that opens with the twenty lines. */
  ghost predicate Opens(log: Log, w: string) {
    && Sized(log) && |log.lines| >= COUNT && IsToken(w)
    && forall i: nat :: i < COUNT ==> log.toks[i] == Toks(w, i)
  }

  /** The miner once n of them are in the run. */
  ghost function Growing(w: string, n: nat): Miner {
    Miner([], 1, Some(RunState(Range(0, n), Slots(w))))
  }

  lemma {:induction false} SecondLineVaries(log: Log, w: string)
    requires Opens(log, w)
    ensures Step(DEFAULT, log, Step(DEFAULT, log, NOTHING, 0), 1) == Growing(w, 2)
  {
    var first := Started(Toks(w, 0));
    assert log.toks[0] == Toks(w, 0) && log.toks[1] == Toks(w, 1);
    assert Matches(first, Toks(w, 1), 1) == 1 && Matches(first, Toks(w, 1), 2) == 2;
    assert Matches(first, Toks(w, 1), 3) == 2;
    assert Merge(first, Toks(w, 1)) == Slots(w);
    assert Range(0, 1) == [0] && Range(0, 2) == [0, 1];
  }

  lemma {:induction false} LaterLineMatches(log: Log, w: string, n: nat)
    requires Opens(log, w) && 2 <= n < COUNT && MinerOver(log, Growing(w, n))
    ensures Step(DEFAULT, log, Growing(w, n), n) == Growing(w, n + 1)
  {
    var slots, toks := Slots(w), Toks(w, n);
    assert log.toks[n] == toks;
    assert Matches(slots, toks, 1) == 1 && Matches(slots, toks, 2) == 2 && Matches(slots, toks, 3) == 3;
    assert Merge(slots, toks) == slots;
  }

  lemma {:induction false} GrowingIsOver(log: Log, w: string, n: nat)
    requires Opens(log, w) && n <= COUNT
    ensures MinerOver(log, Growing(w, n))
  {
  }

  lemma {:induction false} RunGrows(log: Log, w: string, n: nat)
    requires Opens(log, w) && 2 <= n <= COUNT
    ensures MinerOver(log, Growing(w, n)) && MinerOver(log, Growing(w, COUNT))
    ensures MineFrom(DEFAULT, log, n, Growing(w, n)) == MineFrom(DEFAULT, log, COUNT, Growing(w, COUNT))
    decreases COUNT - n
  {
    GrowingIsOver(log, w, n);
    GrowingIsOver(log, w, COUNT);
    if n < COUNT {
      LaterLineMatches(log, w, n);
      RunGrows(log, w, n + 1);
    }
  }

  lemma {:induction false} AllInOneRun(log: Log, w: string)
    requires Opens(log, w)
    ensures MinerOver(log, Growing(w, COUNT))
    ensures MineFrom(DEFAULT, log, 0, NOTHING) == MineFrom(DEFAULT, log, COUNT, Growing(w, COUNT))
  {
    RunGrows(log, w, 2);
    SecondLineVaries(log, w);
    var one := Step(DEFAULT, log, NOTHING, 0);
    assert MineFrom(DEFAULT, log, 0, NOTHING) == MineFrom(DEFAULT, log, 1, one);
  }

  /** The template they collapse into. */
  ghost function Collapsed(w: string): Seg {
    Template(1, Slots(w), seq(COUNT, i requires 0 <= i < COUNT => [if i == 0 then "x" else "y"]))
  }

  lemma {:induction false} OnlyLastVaries(w: string, i: nat)
    ensures Wilds(Slots(w)) == 1 && WildToks(Slots(w), Toks(w, i)) == [Toks(w, i)[2]]
  {
    var s1, t1 := Slots(w)[1..], Toks(w, i)[1..];
    var s2, t2 := s1[1..], t1[1..];
    assert s1[0] == Slot("k", false) && s2[0] == Slot("x", true) && s2[1..] == [];
    assert t2[0] == Toks(w, i)[2] && t2[1..] == [];
    assert Wilds(s2) == 1 && WildToks(s2, t2) == [t2[0]];
    assert Wilds(s1) == 1 && WildToks(s1, t1) == [t2[0]];
  }

  lemma {:induction false} FlushCollapses(log: Log, w: string)
    requires Opens(log, w)
    ensures MinerOver(log, Growing(w, COUNT))
    ensures Flush(DEFAULT, log, Growing(w, COUNT)) == Miner([Collapsed(w)], 2, None)
  {
    GrowingIsOver(log, w, COUNT);
    var run := RunState(Range(0, COUNT), Slots(w));
    OnlyLastVaries(w, 0);
    assert Collapses(DEFAULT, run);
    forall i | 0 <= i < COUNT ensures RunRows(log, run)[i] == Collapsed(w).rows[i] {
      OnlyLastVaries(w, i);
      assert run.indices[i] == i && log.toks[i] == Toks(w, i);
    }
    assert RunRows(log, run) == Collapsed(w).rows;
  }

  // ---- lengths ----

  lemma {:induction false} UnlinesLength(ls: seq<string>, c: nat)
    requires forall k :: 0 <= k < |ls| ==> |ls[k]| == c
    ensures |Unlines(ls)| == |ls| * (c + 1)
  {
    if ls != [] {
      UnlinesLength(ls[..|ls| - 1], c);
      assert |ls| * (c + 1) == (|ls| - 1) * (c + 1) + (c + 1);
    }
  }

  lemma {:induction false} UnlinesBoth(a: seq<string>, b: seq<string>)
    ensures Unlines(a + b) == Unlines(a) + Unlines(b)
  {
    if b == [] {
      assert a + b == a && Unlines(a) + "" == Unlines(a);
    } else {
      var init, last := b[..|b| - 1], b[|b| - 1];
      assert a + b == (a + init) + [last];
      UnlinesSnoc(a + init, last);
      UnlinesBoth(a, init);
      SeqAssoc(Unlines(a), Unlines(init), last + ['\n']);
    }
  }

  lemma {:induction false} HeaderLength(w: string)
    ensures |HeaderLine(1, Names(Slots(w)), COUNT)| == |w| + 38
  {
    var names := Names(Slots(w));
    assert names == [w, "k", WILDCARD];
    assert names[1..] == ["k", WILDCARD] && names[1..][1..] == [WILDCARD];
    assert JoinOn(names[1..][1..], ' ') == WILDCARD;
    assert |JoinOn(names[1..], ' ')| == 5 && |JoinOn(names, ' ')| == |w| + 6;
    assert |Itoa(1)| == 1 && |Itoa(2)| == 1 && |Itoa(20)| == 2;
  }

  /** The template is shorter than what it stands for. */
  lemma {:induction false} TemplateIsShorter(w: string)
    requires IsToken(w)
    ensures |Unlines(SegLines(Collapsed(w)))| < |Unlines(Lines(w))|
  {
    var g := Collapsed(w);
    var header := HeaderLine(1, Names(Slots(w)), COUNT);
    HeaderLength(w);
    forall k | 0 <= k < COUNT ensures |RowLines(g.rows)[k]| == 1 {
      assert |g.rows[k]| == 1;
    }
    UnlinesLength(RowLines(g.rows), 1);
    UnlinesLength([header], |w| + 38);
    UnlinesBoth([header], RowLines(g.rows));
    forall k | 0 <= k < COUNT ensures |Lines(w)[k]| == |w| + 4 {
      ToksAre(w, k);
    }
    UnlinesLength(Lines(w), |w| + 4);
    assert SegLines(g) == [header] + RowLines(g.rows);
  }

  // ---- "<*>" all down the run ----

  /** A content that prints as those lines splits into them. */
  lemma {:induction false} SplitsInto(ls: seq<string>)
    requires forall k :: 0 <= k < |ls| ==> Solid(ls[k])
    ensures SplitLines(Unlines(ls)) == ls == TrimAll(ls) && (ls != [] ==> !EndsOpen(Unlines(ls)))
  {
    SplitsBack(ls, "");
    assert Unlines(ls) + "" == Unlines(ls);
    assert TrimAll(ls) == ls;
  }

  lemma {:induction false} LinesAreSolid(w: string)
    requires IsToken(w) && w[0] != '['
    ensures forall k :: 0 <= k < COUNT ==> Solid(Lines(w)[k]) && !LooksLikeHeader(Lines(w)[k])
    ensures Opens(Log(Lines(w), Tokenized(Lines(w))), w)
  {
    forall k: nat | k < COUNT
      ensures Solid(Lines(w)[k]) && !LooksLikeHeader(Lines(w)[k]) && Fields(Lines(w)[k]) == Toks(w, k)
    {
      ToksAre(w, k);
      assert HEADER_OPEN[0] == '[';
    }
  }

  lemma {:induction false} MinedOne(w: string)
    requires IsToken(w) && w[0] != '['
    ensures Mined(DEFAULT, Lines(w)) == [Collapsed(w)] && !KeptWhole(DEFAULT, Unlines(Lines(w)))
  {
    var lines := Lines(w);
    var log := Log(lines, Tokenized(lines));
    LinesAreSolid(w);
    SplitsInto(lines);
    AllInOneRun(log, w);
    FlushCollapses(log, w);
    PrintedOne(Collapsed(w));
    TemplateIsShorter(w);
  }

  /** A log whose every line starts with "<*>" collapses and does not read back. */
  lemma {:induction false} StarsAreLost()
    ensures var content := Unlines(Lines(WILDCARD));
            && |SplitLines(content)| >= DEFAULT.minLines
            && !KeptWhole(DEFAULT, content)
            && Read(SplitLines(OutputOf(DEFAULT, content))) != Some(Tokenized(SplitLines(content)))
  {
    var lines := Lines(WILDCARD);
    LinesAreSolid(WILDCARD);
    SplitsInto(lines);
    MinedOne(WILDCARD);
    StarsAreConstant();
    OutputReadsBackIff(DEFAULT, Unlines(lines));
  }

  lemma {:induction false} StarsAreConstant()
    requires Mined(DEFAULT, Lines(WILDCARD)) == [Collapsed(WILDCARD)]
    ensures !StarFree(DEFAULT, Lines(WILDCARD))
  {
    ClearIff(DEFAULT, Lines(WILDCARD));
    var g := Collapsed(WILDCARD);
    assert !g.slots[0].wild && g.slots[0].tok == WILDCARD;
    assert !Clear(Mined(DEFAULT, Lines(WILDCARD))[0]);
  }

  lemma {:induction false} PrintedOne(g: Seg)
    ensures AllLines([g]) == SegLines(g)
  {
    AllLinesSnoc([], g);
    assert [] + [g] == [g];
  }

  // ---- a look-alike ----

  const LOOKALIKE: string := HeaderLine(1, ["a"], 0)

  lemma {:induction false} LookalikeIs()
    ensures Solid(LOOKALIKE) && |Fields(LOOKALIKE)| > 3
  {
    HeaderIsSolid(1, ["a"], 0);
    LookalikeFields();
  }

  /** Tokens split off one by one. */
  lemma {:induction false} FieldsFirst(t: string, rest: string)
    requires IsToken(t)
    ensures Fields(t + ([' '] + rest)) == [t] + Fields(rest)
  {
    var s := [' '] + rest;
    WordLengthIs(t, s);
    assert (t + s)[..|t|] == t && (t + s)[|t|..] == s && s[1..] == rest;
  }

  /** A space inside the second of three pieces ends a token that starts with the first. */
  lemma {:induction false} FieldsAcross(a: string, b: string, c: string, rest: string)
    requires IsToken(a + b)
    ensures Fields(a + ((b + [' '] + c) + rest)) == [a + b] + Fields(c + rest)
  {
    FieldsFirst(a + b, c + rest);
    assert a + ((b + [' '] + c) + rest) == (a + b) + ([' '] + (c + rest));
  }

  lemma {:induction false} TwoTokens(body: string, close: string, paren: string, n: string, end: string)
    requires IsToken(body + close) && IsToken(paren + n)
    ensures |Fields(body + ((close + [' '] + paren) + (n + ([' '] + end))))| > 1
  {
    var last := n + ([' '] + end);
    FieldsAcross(body, close, paren, last);
    FieldsFirst(paren + n, end);
    assert paren + last == (paren + n) + ([' '] + end);
  }

  lemma {:induction false} ThirdToken(t: string, id: string, colon: string, rest: string)
    requires IsToken(t + id + colon)
    ensures |Fields(t + (id + ((colon + [' ']) + rest)))| == 1 + |Fields(rest)|
  {
    FieldsFirst(t + id + colon, rest);
    assert t + (id + ((colon + [' ']) + rest)) == (t + id + colon) + ([' '] + rest);
  }

  /** The pieces of a header hold spaces at four places. */
  lemma {:induction false} FourTokens(open: string, t: string, id: string, colon: string, body: string, close: string,
                                      paren: string, n: string, end: string)
    requires IsToken(open) && IsToken(t + id + colon) && IsToken(body + close) && IsToken(paren + n)
    ensures var third := body + ((close + [' '] + paren) + (n + ([' '] + end)));
            |Fields((open + [' '] + t) + (id + ((colon + [' ']) + third)))| > 3
  {
    var third := body + ((close + [' '] + paren) + (n + ([' '] + end)));
    var second := id + ((colon + [' ']) + third);
    TwoTokens(body, close, paren, n, end);
    ThirdToken(t, id, colon, third);
    FieldsFirst(open, t + second);
    assert (open + [' '] + t) + second == open + ([' '] + (t + second));
  }

  lemma {:induction false} LookalikePieces()
    ensures HEADER_OPEN == "[Template" + [' '] + "T" && HEADER_COLON == ":" + [' ']
    ensures HEADER_CLOSE == "]" + [' '] + "(" && HEADER_END == [' '] + "occurrences)"
    ensures Itoa(1) == "1" && Itoa(0) == "0" && JoinOn(["a"], ' ') == "a"
  {
  }

  lemma {:induction false} LookalikeFields()
    ensures |Fields(LOOKALIKE)| > 3
  {
    LookalikePieces();
    FourTokens("[Template", "T", "1", ":", "a", "]", "(", "0", "occurrences)");
  }

  /** Behind such lines a line that looks like a template without rows is read as nothing. */
  lemma {:induction false} LookalikeIsLost()
    ensures var content := Unlines(Lines("j") + [LOOKALIKE]);
            && |SplitLines(content)| >= DEFAULT.minLines
            && !KeptWhole(DEFAULT, content)
            && Read(SplitLines(OutputOf(DEFAULT, content))) != Some(Tokenized(SplitLines(content)))
  {
    var lines := Lines("j") + [LOOKALIKE];
    var content := Unlines(lines);
    LinesAreSolid("j");
    LookalikeIs();
    SplitsInto(lines);
    var template := Collapsed("j");
    LookalikeMined();
    var printed := SegLines(template) + [LOOKALIKE];
    TemplateIsShorter("j");
    UnlinesBoth(Lines("j"), [LOOKALIKE]);
    UnlinesBoth(SegLines(template), [LOOKALIKE]);
    assert DropFinalNewline(Unlines(printed), content) == Unlines(printed);
    TemplateReads();
    SplitsInto(printed);
  }

  /** A line of more tokens ends the run and starts its own. */
  lemma {:induction false} NextLineFlushes(log: Log, w: string)
    requires Opens(log, w) && |log.lines| == COUNT + 1 && |log.toks[COUNT]| > 3
    ensures MinerOver(log, Growing(w, COUNT))
    ensures Step(DEFAULT, log, Growing(w, COUNT), COUNT)
         == Miner([Collapsed(w)], 2, Some(RunState([COUNT], Started(log.toks[COUNT]))))
  {
    FlushCollapses(log, w);
  }

  lemma {:induction false} LoneLineIsVerbatim(log: Log, w: string)
    requires Opens(log, w) && |log.lines| == COUNT + 1 && |log.toks[COUNT]| > 3
    ensures MinedFrom(DEFAULT, log) == [Collapsed(w)] + [Verbatim(log.lines[COUNT], log.toks[COUNT])]
  {
    NextLineFlushes(log, w);
    AllInOneRun(log, w);
    var last := Step(DEFAULT, log, Growing(w, COUNT), COUNT);
    assert MineFrom(DEFAULT, log, COUNT + 1, last) == last;
    assert !Collapses(DEFAULT, last.active.value);
    assert RunVerbatim(log, last.active.value) == [Verbatim(log.lines[COUNT], log.toks[COUNT])];
  }

  lemma {:induction false} StillOpens(w: string, more: seq<string>)
    requires IsToken(w) && w[0] != '['
    ensures Opens(Log(Lines(w) + more, Tokenized(Lines(w) + more)), w)
  {
    LinesAreSolid(w);
    forall i: nat | i < COUNT ensures Tokenized(Lines(w) + more)[i] == Toks(w, i) {
      assert (Lines(w) + more)[i] == Lines(w)[i] && Tokenized(Lines(w))[i] == Toks(w, i);
    }
  }

  lemma {:induction false} LookalikeMined()
    ensures AllLines(Mined(DEFAULT, Lines("j") + [LOOKALIKE])) == SegLines(Collapsed("j")) + [LOOKALIKE]
  {
    var lines := Lines("j") + [LOOKALIKE];
    StillOpens("j", [LOOKALIKE]);
    LookalikeIs();
    assert lines[COUNT] == LOOKALIKE && Tokenized(lines)[COUNT] == Fields(LOOKALIKE);
    LoneLineIsVerbatim(Log(lines, Tokenized(lines)), "j");
    AllLinesSnoc([Collapsed("j")], Verbatim(LOOKALIKE, Fields(LOOKALIKE)));
    PrintedOne(Collapsed("j"));
  }

  lemma {:induction false} CollapsedReads(w: string)
    requires IsToken(w) && w != WILDCARD
    ensures Readable(Collapsed(w)) && Clear(Collapsed(w)) && Printable(Collapsed(w))
  {
    OnlyLastVaries(w, 0);
    assert WILDCARD != "k";
  }

  /** The template reads back; the look-alike after it adds nothing. */
  lemma {:induction false} TemplateReads()
    ensures var printed := SegLines(Collapsed("j")) + [LOOKALIKE];
            && (forall k :: 0 <= k < |printed| ==> Solid(printed[k]))
            && Read(printed).Some? && |Read(printed).value| == COUNT
  {
    var none: seq<string> := [];
    CollapsedReads("j");
    ImitationIsLost(1, ["a"], none);
    assert [LOOKALIKE] + none == [LOOKALIKE];
    SegReads(Collapsed("j"), [LOOKALIKE]);
    LookalikeIs();
    SegLinesSolid(Collapsed("j"));
  }

  lemma {:induction false} SegLinesSolid(g: Seg)
    requires Printable(g) && g.Template?
    ensures forall k :: 0 <= k < |SegLines(g)| ==> Solid(SegLines(g)[k])
  {
    NamesHaveNoNewline(g.slots);
    HeaderIsSolid(g.id, Names(g.slots), |g.rows|);
    forall k | 0 <= k < |g.rows| ensures Solid(RowLines(g.rows)[k]) {
      JoinIsSolid(g.rows[k]);
    }
  }
}
