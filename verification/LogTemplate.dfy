/** Mining runs of same-shaped log lines into templates:
    internal/reformats/log_template.go. Lines are their tokens; how many must
    match to extend a run is a parameter. */
module LogTemplate {

  import opened Common
  import opened Text

  // ---- lines and tokens ----

  function WordLength(s: string): (n: nat)
    ensures n <= |s| && (forall i :: 0 <= i < n ==> !IsWhite(s[i])) && (n < |s| ==> IsWhite(s[n]))
  {
    if s == [] || IsWhite(s[0]) then 0 else 1 + WordLength(s[1..])
  }

  /** strings.Fields. */
  function Fields(s: string): (toks: seq<string>)
    ensures forall i :: 0 <= i < |toks| ==> IsToken(toks[i])
  {
    if s == [] then []
    else if IsWhite(s[0]) then Fields(s[1..])
    else [s[..WordLength(s)]] + Fields(s[WordLength(s)..])
  }

  predicate IsToken(t: string) { t != [] && forall i :: 0 <= i < |t| ==> !IsWhite(t[i]) }

  function LineLength(s: string): (n: nat)
    ensures n <= |s| && '\n' !in s[..n] && (n < |s| ==> s[n] == '\n')
  {
    if s == [] || s[0] == '\n' then 0 else 1 + LineLength(s[1..])
  }

  function TrimCR(s: string): string { if s != [] && s[|s| - 1] == '\r' then s[..|s| - 1] else s }

  /** splitLinesRust: newline-separated, a final newline opens no line, one trailing
      carriage return is dropped. */
  function SplitLines(s: string): seq<string> {
    if s == [] then []
    else
      var n := LineLength(s);
      [TrimCR(s[..n])] + (if n < |s| then SplitLines(s[n + 1..]) else [])
  }

  /** The input's lines, each with its tokens. */
  datatype Log = Log(lines: seq<string>, toks: seq<seq<string>>)

  ghost predicate Sized(log: Log) { |log.lines| == |log.toks| }

  function Tokenized(lines: seq<string>): (r: seq<seq<string>>)
    ensures |r| == |lines|
  {
    seq(|lines|, i requires 0 <= i < |lines| => Fields(lines[i]))
  }

  // ---- templates ----

  /** similar decides, from the number of matching positions and the number of tokens,
      whether a line is close enough: the source's single-precision comparison of their
      ratio with a threshold, kept abstract. */
  datatype Config = Config(minLines: nat, minRun: nat, similar: (nat, nat) -> bool, minConstantTokens: nat)

  datatype Slot = Slot(tok: string, wild: bool)

  /** A line printed as it stands, with its tokens; or a template with its variant rows. */
  datatype Seg = Verbatim(line: string, toks: seq<string>) | Template(id: nat, slots: seq<Slot>, rows: seq<seq<string>>)

  datatype RunState = RunState(indices: seq<nat>, slots: seq<Slot>)

  /** What has been emitted, the next template number, and the run being grown. */
  datatype Miner = Miner(segs: seq<Seg>, nextId: nat, active: Option<RunState>)

  ghost function Started(toks: seq<string>): (r: seq<Slot>)
    ensures |r| == |toks|
  {
    seq(|toks|, p requires 0 <= p < |toks| => Slot(toks[p], false))
  }

  ghost function Merge(slots: seq<Slot>, toks: seq<string>): (r: seq<Slot>)
    requires |slots| == |toks|
    ensures |r| == |slots|
  {
    seq(|slots|, p requires 0 <= p < |slots| => Slot(slots[p].tok, slots[p].wild || slots[p].tok != toks[p]))
  }

  ghost function Matches(slots: seq<Slot>, toks: seq<string>, n: nat): nat
    requires n <= |slots| == |toks|
  {
    if n == 0 then 0
    else Matches(slots, toks, n - 1) + (if slots[n - 1].wild || slots[n - 1].tok == toks[n - 1] then 1 else 0)
  }

  ghost predicate Extends(cfg: Config, slots: seq<Slot>, toks: seq<string>) {
    |toks| == |slots| && cfg.similar(Matches(slots, toks, |toks|), |toks|)
  }

  function Wilds(slots: seq<Slot>): nat {
    if slots == [] then 0 else (if slots[0].wild then 1 else 0) + Wilds(slots[1..])
  }

  ghost predicate Collapses(cfg: Config, run: RunState) {
    var varying := Wilds(run.slots);
    |run.indices| >= cfg.minRun && |run.slots| - varying >= cfg.minConstantTokens && varying > 0
  }

  /** The tokens at the wild positions. */
  function WildToks(slots: seq<Slot>, toks: seq<string>): (r: seq<string>)
    requires |slots| == |toks|
    ensures |r| == Wilds(slots)
  {
    if slots == [] then []
    else (if slots[0].wild then [toks[0]] else []) + WildToks(slots[1..], toks[1..])
  }

  /** A run over lines of the log, all with as many tokens as it has slots. */
  ghost predicate RunOver(log: Log, run: RunState) {
    && Sized(log)
    && forall k :: 0 <= k < |run.indices| ==>
         run.indices[k] < |log.lines| && |log.toks[run.indices[k]]| == |run.slots|
  }

  ghost function RunRows(log: Log, run: RunState): (r: seq<seq<string>>)
    requires RunOver(log, run)
    ensures |r| == |run.indices|
  {
    seq(|run.indices|, k requires 0 <= k < |run.indices| => WildToks(run.slots, log.toks[run.indices[k]]))
  }

  ghost function RunVerbatim(log: Log, run: RunState): (r: seq<Seg>)
    requires RunOver(log, run)
    ensures |r| == |run.indices|
  {
    seq(|run.indices|,
        k requires 0 <= k < |run.indices| => Verbatim(log.lines[run.indices[k]], log.toks[run.indices[k]]))
  }

  ghost predicate MinerOver(log: Log, m: Miner) { Sized(log) && (m.active.Some? ==> RunOver(log, m.active.value)) }

  ghost function Flush(cfg: Config, log: Log, m: Miner): Miner
    requires MinerOver(log, m)
  {
    if m.active.None? then m
    else if Collapses(cfg, m.active.value) then
      Miner(m.segs + [Template(m.nextId, m.active.value.slots, RunRows(log, m.active.value))], m.nextId + 1, None)
    else Miner(m.segs + RunVerbatim(log, m.active.value), m.nextId, None)
  }

  ghost function Step(cfg: Config, log: Log, m: Miner, i: nat): (r: Miner)
    requires MinerOver(log, m) && i < |log.lines|
    ensures MinerOver(log, r)
  {
    var toks := log.toks[i];
    if toks == [] then
      var f := Flush(cfg, log, m);
      f.(segs := f.segs + [Verbatim(log.lines[i], toks)])
    else if m.active.Some? && Extends(cfg, m.active.value.slots, toks) then
      m.(active := Some(RunState(m.active.value.indices + [i], Merge(m.active.value.slots, toks))))
    else Flush(cfg, log, m).(active := Some(RunState([i], Started(toks))))
  }

  /** The loop from line i on. */
  ghost function MineFrom(cfg: Config, log: Log, i: nat, m: Miner): (r: Miner)
    requires MinerOver(log, m) && i <= |log.lines|
    ensures MinerOver(log, r)
    decreases |log.lines| - i
  {
    if i == |log.lines| then m else MineFrom(cfg, log, i + 1, Step(cfg, log, m, i))
  }

  const NOTHING := Miner([], 1, None)

  ghost function MinedFrom(cfg: Config, log: Log): seq<Seg>
    requires Sized(log)
  {
    Flush(cfg, log, MineFrom(cfg, log, 0, NOTHING)).segs
  }

  ghost function Mined(cfg: Config, lines: seq<string>): seq<Seg> { MinedFrom(cfg, Log(lines, Tokenized(lines))) }

  // ---- expanding gives the tokens back ----

  /** The row's tokens at the wild positions, the template's elsewhere. */
  ghost function Fill(slots: seq<Slot>, row: seq<string>): (toks: seq<string>)
    ensures |toks| == |slots|
  {
    if slots == [] then []
    else if !slots[0].wild then [slots[0].tok] + Fill(slots[1..], row)
    else if row == [] then [""] + Fill(slots[1..], row)
    else [row[0]] + Fill(slots[1..], row[1..])
  }

  ghost function Expand(g: Seg): seq<seq<string>> {
    if g.Verbatim? then [g.toks]
    else seq(|g.rows|, k requires 0 <= k < |g.rows| => Fill(g.slots, g.rows[k]))
  }

  ghost function ExpandAll(segs: seq<Seg>): seq<seq<string>> {
    if segs == [] then [] else ExpandAll(segs[..|segs| - 1]) + Expand(segs[|segs| - 1])
  }

  /** The constants are the tokens of that line. */
  ghost predicate Agree(slots: seq<Slot>, toks: seq<string>) {
    |slots| == |toks| && forall p :: 0 <= p < |slots| && !slots[p].wild ==> slots[p].tok == toks[p]
  }

  lemma {:induction false} FillRestores(slots: seq<Slot>, toks: seq<string>)
    requires Agree(slots, toks)
    ensures Fill(slots, WildToks(slots, toks)) == toks
  {
    if slots != [] {
      assert Agree(slots[1..], toks[1..]);
      FillRestores(slots[1..], toks[1..]);
      var rest := WildToks(slots[1..], toks[1..]);
      assert ([toks[0]] + rest)[1..] == rest && [] + rest == rest;
      assert [toks[0]] + toks[1..] == toks;
    }
  }

  lemma {:induction false} ExpandSnoc(segs: seq<Seg>, g: Seg)
    ensures ExpandAll(segs + [g]) == ExpandAll(segs) + Expand(g)
  {
    assert (segs + [g])[..|segs|] == segs;
  }

  // ---- what a run is ----

  /** Lines a, ..., b - 1 have as many tokens as line a, and some. */
  ghost predicate SameShape(toks: seq<seq<string>>, a: nat, b: nat) {
    a < b <= |toks| && |toks[a]| > 0 && (b > a + 1 ==> SameShape(toks, a, b - 1) && |toks[b - 1]| == |toks[a]|)
  }

  lemma {:induction false} SameLength(toks: seq<seq<string>>, a: nat, b: nat, j: nat)
    requires SameShape(toks, a, b) && a <= j < b
    ensures |toks[j]| == |toks[a]|
  {
    if b > a + 1 && j < b - 1 {
      SameLength(toks, a, b - 1, j);
    }
  }

  /** The template those lines make, merged one by one. */
  ghost function Merged(toks: seq<seq<string>>, a: nat, b: nat): (r: seq<Slot>)
    requires SameShape(toks, a, b)
    ensures |r| == |toks[a]|
  {
    if b == a + 1 then Started(toks[a]) else Merge(Merged(toks, a, b - 1), toks[b - 1])
  }

  /** Position p varies over the lines a, ..., b - 1. */
  ghost predicate Varies(toks: seq<seq<string>>, a: nat, b: nat, p: nat) {
    exists j :: a <= j < b && j < |toks| && p < |toks[j]| && p < |toks[a]| && toks[j][p] != toks[a][p]
  }

  /** A slot holds the first line's token, and is wild exactly when some line of the
      run differs from it there. */
  lemma {:induction false} MergedIs(toks: seq<seq<string>>, a: nat, b: nat, p: nat)
    requires SameShape(toks, a, b) && p < |toks[a]|
    ensures Merged(toks, a, b)[p].tok == toks[a][p] && (Merged(toks, a, b)[p].wild <==> Varies(toks, a, b, p))
  {
    if b > a + 1 {
      MergedIs(toks, a, b - 1, p);
      if toks[b - 1][p] == toks[a][p] {
        assert Varies(toks, a, b, p) <==> Varies(toks, a, b - 1, p);
      }
    }
  }

  /** The run is exactly the lines a, ..., b - 1, with the template they make. */
  ghost predicate RunIs(toks: seq<seq<string>>, run: RunState, a: nat, b: nat) {
    SameShape(toks, a, b) && run == RangeRun(Merged(toks, a, b), a, b)
  }

  ghost function Range(a: nat, b: nat): (r: seq<nat>)
    requires a <= b
    ensures |r| == b - a && forall k :: 0 <= k < b - a ==> r[k] == a + k
  {
    if a == b then [] else Range(a, b - 1) + [b - 1]
  }

  ghost function RangeRun(slots: seq<Slot>, a: nat, b: nat): RunState
    requires a <= b
  {
    RunState(Range(a, b), slots)
  }

  lemma {:induction false} StartIs(toks: seq<seq<string>>, i: nat)
    requires i < |toks| && toks[i] != []
    ensures RunIs(toks, RunState([i], Started(toks[i])), i, i + 1)
  {
    assert Range(i, i) == [];
  }

  lemma {:induction false} MergeIs(toks: seq<seq<string>>, run: RunState, a: nat, b: nat)
    requires RunIs(toks, run, a, b) && b < |toks| && |toks[b]| == |run.slots|
    ensures RunIs(toks, RunState(run.indices + [b], Merge(run.slots, toks[b])), a, b + 1)
  {
  }

  lemma {:induction false} ConstantsAgree(toks: seq<seq<string>>, run: RunState, a: nat, b: nat, j: nat)
    requires RunIs(toks, run, a, b) && a <= j < b
    ensures Agree(run.slots, toks[j])
  {
    SameLength(toks, a, b, j);
    forall p | 0 <= p < |run.slots| && !run.slots[p].wild ensures run.slots[p].tok == toks[j][p] {
      MergedIs(toks, a, b, p);
    }
  }

  // ---- what flushing emits ----

  lemma {:induction false} NothingMore(segs: seq<Seg>, base: seq<seq<string>>)
    ensures segs + [] == segs && base + [] == base
  {
  }

  /** Emitting lines verbatim, one after the other. */
  lemma {:induction false} VerbatimExpands(toks: seq<seq<string>>, before: seq<Seg>, segs: seq<Seg>, n: nat)
    requires n <= |segs| == |toks|
    requires forall k :: 0 <= k < |segs| ==> segs[k].Verbatim? && segs[k].toks == toks[k]
    ensures ExpandAll(before + segs[..n]) == ExpandAll(before) + toks[..n]
  {
    if n == 0 {
      NothingMore(before, ExpandAll(before));
    } else {
      VerbatimExpands(toks, before, segs, n - 1);
      ExpandSnoc(before + segs[..n - 1], segs[n - 1]);
      TakeOneMore(before, segs, n);
      TakeOneMore(ExpandAll(before), toks, n);
    }
  }

  lemma {:induction false} CollapsedExpands(log: Log, run: RunState, id: nat, a: nat, b: nat)
    requires RunIs(log.toks, run, a, b) && RunOver(log, run)
    ensures Expand(Template(id, run.slots, RunRows(log, run))) == log.toks[a..b]
  {
    var g := Template(id, run.slots, RunRows(log, run));
    forall k | 0 <= k < b - a ensures Expand(g)[k] == log.toks[a..b][k] {
      ConstantsAgree(log.toks, run, a, b, a + k);
      FillRestores(run.slots, log.toks[a + k]);
      assert run.indices[k] == a + k;
    }
  }

  /** Flushing a run, collapsed or not, emits its lines' tokens. */
  lemma {:induction false} FlushExpands(cfg: Config, log: Log, m: Miner, a: nat, b: nat)
    requires m.active.Some? && RunIs(log.toks, m.active.value, a, b) && RunOver(log, m.active.value)
    ensures var f := Flush(cfg, log, m); ExpandAll(f.segs) == ExpandAll(m.segs) + log.toks[a..b]
  {
    var run := m.active.value;
    if Collapses(cfg, run) {
      CollapsedExpands(log, run, m.nextId, a, b);
      ExpandSnoc(m.segs, Template(m.nextId, run.slots, RunRows(log, run)));
    } else {
      var segs := RunVerbatim(log, run);
      var toks := log.toks[a..b];
      VerbatimExpands(toks, m.segs, segs, |segs|);
      assert segs[..|segs|] == segs && toks[..|segs|] == toks;
    }
  }

  // ---- the invariant of the loop ----

  /** After i lines: what is emitted expands to the tokens of the lines before a, and
      the active run is the lines from a on. */
  ghost predicate MinedIs(log: Log, m: Miner, a: nat, i: nat) {
    && Sized(log) && a <= i <= |log.lines|
    && ExpandAll(m.segs) == log.toks[..a]
    && (if m.active.None? then a == i else RunIs(log.toks, m.active.value, a, i))
  }

  lemma {:induction false} FlushIs(cfg: Config, log: Log, m: Miner, a: nat, i: nat)
    requires MinerOver(log, m) && MinedIs(log, m, a, i)
    ensures MinedIs(log, Flush(cfg, log, m), i, i)
  {
    if m.active.Some? {
      FlushExpands(cfg, log, m, a, i);
      assert log.toks[..a] + log.toks[a..i] == log.toks[..i];
    }
  }

  lemma {:induction false} BlankIs(log: Log, m: Miner, i: nat)
    requires MinedIs(log, m, i, i) && m.active.None? && i < |log.lines|
    ensures MinedIs(log, m.(segs := m.segs + [Verbatim(log.lines[i], log.toks[i])]), i + 1, i + 1)
  {
    ExpandSnoc(m.segs, Verbatim(log.lines[i], log.toks[i]));
    assert log.toks[..i] + [log.toks[i]] == log.toks[..i + 1];
  }

  lemma {:induction false} GrowIs(log: Log, m: Miner, a: nat, i: nat)
    requires MinedIs(log, m, a, i) && m.active.Some? && i < |log.lines| && |log.toks[i]| == |m.active.value.slots|
    ensures MinedIs(log, m.(active := Some(RunState(m.active.value.indices + [i],
                                                    Merge(m.active.value.slots, log.toks[i])))), a, i + 1)
  {
    MergeIs(log.toks, m.active.value, a, i);
  }

  lemma {:induction false} FreshIs(log: Log, m: Miner, i: nat)
    requires MinedIs(log, m, i, i) && i < |log.lines| && log.toks[i] != []
    ensures MinedIs(log, m.(active := Some(RunState([i], Started(log.toks[i])))), i, i + 1)
  {
    StartIs(log.toks, i);
  }

  lemma {:induction false} StepIs(cfg: Config, log: Log, m: Miner, a: nat, i: nat) returns (after: Miner, a': nat)
    requires MinerOver(log, m) && MinedIs(log, m, a, i) && i < |log.lines|
    ensures after == Step(cfg, log, m, i) && MinedIs(log, after, a', i + 1)
  {
    after := Step(cfg, log, m, i);
    var toks := log.toks[i];
    if m.active.Some? && toks != [] && Extends(cfg, m.active.value.slots, toks) {
      a' := a;
      GrowIs(log, m, a, i);
    } else {
      FlushIs(cfg, log, m, a, i);
      var f := Flush(cfg, log, m);
      if toks == [] {
        a' := i + 1;
        BlankIs(log, f, i);
      } else {
        a' := i;
        FreshIs(log, f, i);
      }
    }
  }

  // ---- what a template segment says ----

  ghost function TemplatesIn(segs: seq<Seg>): nat {
    if segs == [] then 0 else TemplatesIn(segs[..|segs| - 1]) + (if segs[|segs| - 1].Template? then 1 else 0)
  }

  /** g collapses the lines a, ..., b - 1, and meets the three conditions for it. */
  ghost predicate TemplateOver(cfg: Config, toks: seq<seq<string>>, g: Seg, a: nat, b: nat) {
    && g.Template? && SameShape(toks, a, b) && g.slots == Merged(toks, a, b)
    && Collapses(cfg, RangeRun(g.slots, a, b))
    && |g.rows| == b - a
    && (forall j :: a <= j < b ==> |toks[j]| == |g.slots| && g.rows[j - a] == WildToks(g.slots, toks[j]))
  }

  ghost predicate LineOf(log: Log, line: string, toks: seq<string>) {
    exists i :: 0 <= i < |log.lines| && i < |log.toks| && log.lines[i] == line && log.toks[i] == toks
  }

  /** A segment emitted after segs: a line of the input, or the template with the next
      number over some lines. */
  ghost predicate Emitted(cfg: Config, log: Log, segs: seq<Seg>, g: Seg) {
    match g
    case Verbatim(line, toks) => LineOf(log, line, toks)
    case Template(id, _, _) => id == TemplatesIn(segs) + 1 && exists a, b :: TemplateOver(cfg, log.toks, g, a, b)
  }

  ghost predicate EmittedAll(cfg: Config, log: Log, segs: seq<Seg>) {
    segs != [] ==>
      EmittedAll(cfg, log, segs[..|segs| - 1]) && Emitted(cfg, log, segs[..|segs| - 1], segs[|segs| - 1])
  }

  lemma {:induction false} EmittedAt(cfg: Config, log: Log, segs: seq<Seg>, k: nat)
    requires EmittedAll(cfg, log, segs) && k < |segs|
    ensures Emitted(cfg, log, segs[..k], segs[k])
  {
    if k < |segs| - 1 {
      EmittedAt(cfg, log, segs[..|segs| - 1], k);
      assert segs[..|segs| - 1][..k] == segs[..k];
    }
  }

  lemma {:induction false} EmitSnoc(cfg: Config, log: Log, segs: seq<Seg>, g: Seg)
    requires EmittedAll(cfg, log, segs) && Emitted(cfg, log, segs, g)
    ensures EmittedAll(cfg, log, segs + [g])
    ensures TemplatesIn(segs + [g]) == TemplatesIn(segs) + if g.Template? then 1 else 0
  {
    assert (segs + [g])[..|segs|] == segs;
  }

  lemma {:induction false} EmitVerbatims(cfg: Config, log: Log, before: seq<Seg>, segs: seq<Seg>, n: nat)
    requires EmittedAll(cfg, log, before) && n <= |segs|
    requires forall k :: 0 <= k < |segs| ==> segs[k].Verbatim? && LineOf(log, segs[k].line, segs[k].toks)
    ensures EmittedAll(cfg, log, before + segs[..n]) && TemplatesIn(before + segs[..n]) == TemplatesIn(before)
  {
    if n == 0 {
      assert before + segs[..0] == before;
    } else {
      EmitVerbatims(cfg, log, before, segs, n - 1);
      EmitSnoc(cfg, log, before + segs[..n - 1], segs[n - 1]);
      TakeOneMore(before, segs, n);
    }
  }

  ghost predicate Numbered(cfg: Config, log: Log, m: Miner) {
    EmittedAll(cfg, log, m.segs) && m.nextId == TemplatesIn(m.segs) + 1
  }

  lemma {:induction false} TemplateFits(cfg: Config, log: Log, run: RunState, id: nat, a: nat, b: nat)
    requires RunIs(log.toks, run, a, b) && RunOver(log, run) && Collapses(cfg, run)
    ensures TemplateOver(cfg, log.toks, Template(id, run.slots, RunRows(log, run)), a, b)
  {
    forall j | a <= j < b
      ensures |log.toks[j]| == |run.slots| && RunRows(log, run)[j - a] == WildToks(run.slots, log.toks[j])
    {
      assert run.indices[j - a] == j;
    }
  }

  lemma {:induction false} FlushNumbers(cfg: Config, log: Log, m: Miner, a: nat, i: nat)
    requires MinerOver(log, m) && MinedIs(log, m, a, i) && Numbered(cfg, log, m)
    ensures Numbered(cfg, log, Flush(cfg, log, m))
  {
    if m.active.Some? {
      var run := m.active.value;
      if Collapses(cfg, run) {
        TemplateFits(cfg, log, run, m.nextId, a, i);
        EmitSnoc(cfg, log, m.segs, Template(m.nextId, run.slots, RunRows(log, run)));
      } else {
        var segs := RunVerbatim(log, run);
        forall k | 0 <= k < |segs| ensures LineOf(log, segs[k].line, segs[k].toks) {
          assert segs[k] == Verbatim(log.lines[run.indices[k]], log.toks[run.indices[k]]);
        }
        EmitVerbatims(cfg, log, m.segs, segs, |segs|);
        assert segs[..|segs|] == segs;
      }
    }
  }

  lemma {:induction false} BlankNumbers(cfg: Config, log: Log, f: Miner, i: nat)
    requires Numbered(cfg, log, f) && Sized(log) && i < |log.lines|
    ensures Numbered(cfg, log, f.(segs := f.segs + [Verbatim(log.lines[i], log.toks[i])]))
  {
    assert LineOf(log, log.lines[i], log.toks[i]);
    EmitSnoc(cfg, log, f.segs, Verbatim(log.lines[i], log.toks[i]));
  }

  lemma {:induction false} StepNumbers(cfg: Config, log: Log, m: Miner, a: nat, i: nat) returns (after: Miner)
    requires MinerOver(log, m) && MinedIs(log, m, a, i) && i < |log.lines| && Numbered(cfg, log, m)
    ensures after == Step(cfg, log, m, i) && Numbered(cfg, log, after)
  {
    after := Step(cfg, log, m, i);
    FlushNumbers(cfg, log, m, a, i);
    if log.toks[i] == [] {
      BlankNumbers(cfg, log, Flush(cfg, log, m), i);
    }
  }

  lemma {:induction false} NothingMined(log: Log)
    requires Sized(log)
    ensures MinedIs(log, NOTHING, 0, 0)
  {
  }

  /** Lines before i are mined: those before some a are emitted, the rest are the
      active run. */
  ghost predicate MinedTo(cfg: Config, log: Log, m: Miner, i: nat) {
    MinerOver(log, m) && Numbered(cfg, log, m) && exists a :: MinedIs(log, m, a, i)
  }

  /** One step keeps both invariants. */
  lemma {:induction false} StepKeeps(cfg: Config, log: Log, m: Miner, i: nat)
    requires MinedTo(cfg, log, m, i) && i < |log.lines|
    ensures MinedTo(cfg, log, Step(cfg, log, m, i), i + 1)
  {
    var a :| MinedIs(log, m, a, i);
    var after, a' := StepIs(cfg, log, m, a, i);
    var same := StepNumbers(cfg, log, m, a, i);
  }

  /** Both invariants hold when the loop ends. */
  lemma {:induction false} MinedAll(cfg: Config, log: Log, i: nat, m: Miner) returns (last: Miner)
    requires i <= |log.lines| && MinedTo(cfg, log, m, i)
    ensures last == MineFrom(cfg, log, i, m) && MinedTo(cfg, log, last, |log.lines|)
    decreases |log.lines| - i
  {
    last := m;
    if i < |log.lines| {
      StepKeeps(cfg, log, m, i);
      last := MinedAll(cfg, log, i + 1, Step(cfg, log, m, i));
    }
  }

  lemma {:induction false} MinedWhole(cfg: Config, log: Log) returns (m: Miner, a: nat)
    requires Sized(log)
    ensures m == MineFrom(cfg, log, 0, NOTHING)
    ensures MinerOver(log, m) && Numbered(cfg, log, m) && MinedIs(log, m, a, |log.lines|)
  {
    NothingMined(log);
    m := MinedAll(cfg, log, 0, NOTHING);
    a :| MinedIs(log, m, a, |log.lines|);
  }

  /** Every template emitted is numbered from 1 in order, covers a run of at least
      minRun lines with enough constants and something varying, and its slots are
      constant exactly where all those lines agree. */
  lemma {:induction false} TemplatesAreExact(cfg: Config, lines: seq<string>, k: nat)
    requires k < |Mined(cfg, lines)|
    ensures Emitted(cfg, Log(lines, Tokenized(lines)), Mined(cfg, lines)[..k], Mined(cfg, lines)[k])
  {
    var log := Log(lines, Tokenized(lines));
    var m, a := MinedWhole(cfg, log);
    FlushNumbers(cfg, log, m, a, |lines|);
    EmittedAt(cfg, log, Mined(cfg, lines), k);
  }

  /** Expanding what is emitted gives every line's tokens, in order, once. */
  lemma {:induction false} Lossless(cfg: Config, lines: seq<string>)
    ensures ExpandAll(Mined(cfg, lines)) == Tokenized(lines)
  {
    var log := Log(lines, Tokenized(lines));
    var m, a := MinedWhole(cfg, log);
    FlushIs(cfg, log, m, a, |lines|);
    assert log.toks[..|lines|] == log.toks;
  }
}
