/** Printing mined templates, and the loop that mines and prints them:
    internal/reformats/log_template.go. */
module LogTemplateText {

  import opened Common
  import opened Text
  import opened LogTemplate

  // ---- printing ----

  const WILDCARD := "<*>"

  function Names(slots: seq<Slot>): (r: seq<string>)
    ensures |r| == |slots|
  {
    seq(|slots|, p requires 0 <= p < |slots| => if slots[p].wild then WILDCARD else slots[p].tok)
  }

  const HEADER_OPEN := "[Template T"
  const HEADER_COLON := ": "
  const HEADER_CLOSE := "] ("
  const HEADER_END := " occurrences)"

  function HeaderLine(id: nat, names: seq<string>, n: nat): string {
    HEADER_OPEN + (Itoa(id) + (HEADER_COLON + (JoinOn(names, ' ') + (HEADER_CLOSE + (Itoa(n) + HEADER_END)))))
  }

  function RowLines(rows: seq<seq<string>>): (r: seq<string>)
    ensures |r| == |rows|
  {
    seq(|rows|, k requires 0 <= k < |rows| => JoinOn(rows[k], ' '))
  }

  function SegLines(g: Seg): seq<string> {
    if g.Verbatim? then [g.line] else [HeaderLine(g.id, Names(g.slots), |g.rows|)] + RowLines(g.rows)
  }

  function AllLines(segs: seq<Seg>): seq<string> {
    if segs == [] then [] else AllLines(segs[..|segs| - 1]) + SegLines(segs[|segs| - 1])
  }

  /** Each line with its newline. */
  function Unlines(ls: seq<string>): string {
    if ls == [] then "" else Unlines(ls[..|ls| - 1]) + (ls[|ls| - 1] + ['\n'])
  }

  lemma {:induction false} UnlinesSnoc(ls: seq<string>, l: string)
    ensures Unlines(ls + [l]) == Unlines(ls) + (l + ['\n'])
  {
    assert (ls + [l])[..|ls|] == ls;
  }

  lemma {:induction false} AllLinesSnoc(segs: seq<Seg>, g: Seg)
    ensures AllLines(segs + [g]) == AllLines(segs) + SegLines(g)
  {
    assert (segs + [g])[..|segs|] == segs;
  }

  ghost function Printed(segs: seq<Seg>): string { Unlines(AllLines(segs)) }

  // ---- the miner's loop ----

  class Run {
    var indices: seq<nat>
    const template: array<Slot>

    ghost function State(): RunState
      reads this, template
    {
      RunState(indices, template[..])
    }

    /** startRun: every token a constant slot. */
    constructor (i: nat, toks: seq<string>)
      ensures State() == RunState([i], Started(toks)) && fresh(template)
    {
      indices := [i];
      template := new Slot[|toks|](p requires 0 <= p < |toks| => Slot(toks[p], false));
    }

    /** extendsRun: as many tokens, and enough of them matching. */
    method ExtendsRun(toks: seq<string>, cfg: Config) returns (b: bool)
      requires toks != []
      ensures b == Extends(cfg, State().slots, toks)
    {
      if |toks| != template.Length {
        return false;
      }
      var matches := 0;
      for pos := 0 to |toks|
        invariant matches == Matches(template[..], toks, pos)
      {
        var s := template[pos];
        if s.wild || s.tok == toks[pos] {
          matches := matches + 1;
        }
      }
      return cfg.similar(matches, |toks|);
    }

    /** mergeIntoTemplate: constants that differ become wild, in place. */
    method MergeIntoTemplate(toks: seq<string>)
      requires |toks| == template.Length
      modifies template
      ensures template[..] == Merge(old(template[..]), toks)
    {
      for pos := 0 to template.Length
        invariant template[..pos] == Merge(old(template[..]), toks)[..pos]
        invariant template[pos..] == old(template[..])[pos..]
      {
        assert template[pos] == template[pos..][0];
        if !template[pos].wild && template[pos].tok != toks[pos] {
          template[pos] := template[pos].(wild := true);
        }
        assert template[pos + 1..] == old(template[..])[pos..][1..];
      }
    }
  }

  method CountConstants(slots: seq<Slot>) returns (constant: nat)
    ensures constant == |slots| - Wilds(slots)
  {
    constant := 0;
    for pos := 0 to |slots|
      invariant constant + (|slots| - pos - Wilds(slots[pos..])) == |slots| - Wilds(slots)
    {
      assert slots[pos..][0] == slots[pos] && slots[pos..][1..] == slots[pos + 1..];
      if !slots[pos].wild {
        constant := constant + 1;
      }
    }
  }

  lemma {:induction false} JoinSnoc(toks: seq<string>, t: string)
    ensures JoinOn(toks + [t], ' ') == if toks == [] then t else JoinOn(toks, ' ') + ([' '] + t)
  {
    if |toks| > 1 {
      JoinSnoc(toks[1..], t);
      assert (toks + [t])[1..] == toks[1..] + [t];
      FourParts(toks[0], [' '], JoinOn(toks[1..], ' '), [' '] + t);
      SeqAssoc(toks[0], [' '] + JoinOn(toks[1..], ' '), [' '] + t);
    } else if |toks| == 1 {
      assert (toks + [t])[1..] == [t];
    }
  }

  method JoinSlots(slots: seq<Slot>) returns (out: string)
    ensures out == JoinOn(Names(slots), ' ')
  {
    out := "";
    for pos := 0 to |slots|
      invariant out == JoinOn(Names(slots)[..pos], ' ')
    {
      JoinSnoc(Names(slots)[..pos], Names(slots)[pos]);
      assert Names(slots)[..pos] + [Names(slots)[pos]] == Names(slots)[..pos + 1];
      if pos > 0 {
        out := out + [' '];
      }
      out := out + (if slots[pos].wild then WILDCARD else slots[pos].tok);
    }
    assert Names(slots)[..|slots|] == Names(slots);
  }

  lemma {:induction false} WildToksSnoc(slots: seq<Slot>, toks: seq<string>, n: nat)
    requires n < |slots| == |toks|
    ensures WildToks(slots[..n + 1], toks[..n + 1])
         == WildToks(slots[..n], toks[..n]) + if slots[n].wild then [toks[n]] else []
  {
    if n > 0 {
      WildToksSnoc(slots[1..], toks[1..], n - 1);
      assert slots[..n + 1][1..] == slots[1..][..n] && toks[..n + 1][1..] == toks[1..][..n];
      assert slots[..n][1..] == slots[1..][..n - 1] && toks[..n][1..] == toks[1..][..n - 1];
    } else {
      assert slots[..1][1..] == [] && toks[..1][1..] == [];
    }
  }

  /** One variant row: the tokens at the wild positions. */
  method JoinRow(slots: seq<Slot>, toks: seq<string>) returns (out: string)
    requires |slots| == |toks|
    ensures out == JoinOn(WildToks(slots, toks), ' ')
  {
    out := "";
    var first := true;
    for pos := 0 to |slots|
      invariant out == JoinOn(WildToks(slots[..pos], toks[..pos]), ' ')
      invariant first <==> WildToks(slots[..pos], toks[..pos]) == []
    {
      WildToksSnoc(slots, toks, pos);
      if !slots[pos].wild {
        assert WildToks(slots[..pos], toks[..pos]) + [] == WildToks(slots[..pos], toks[..pos]);
        continue;
      }
      JoinSnoc(WildToks(slots[..pos], toks[..pos]), toks[pos]);
      if !first {
        out := out + [' '];
      }
      out := out + toks[pos];
      first := false;
    }
    assert slots[..|slots|] == slots && toks[..|toks|] == toks;
  }

  method EmitVerbatim(run: Run, log: Log, ghost segs: seq<Seg>, out: string) returns (r: string)
    requires RunOver(log, run.State()) && out == Printed(segs)
    ensures r == Printed(segs + RunVerbatim(log, run.State()))
  {
    r := out;
    ghost var all := RunVerbatim(log, run.State());
    assert segs + all[..0] == segs;
    for k := 0 to |run.indices|
      invariant r == Printed(segs + all[..k])
    {
      AllLinesSnoc(segs + all[..k], all[k]);
      UnlinesSnoc(AllLines(segs + all[..k]), log.lines[run.indices[k]]);
      TakeOneMore(segs, all, k + 1);
      r := r + (log.lines[run.indices[k]] + ['\n']);
    }
    assert all[..|run.indices|] == all;
  }

  method EmitTemplate(run: Run, id: nat, log: Log, ghost segs: seq<Seg>, out: string)
    returns (r: string)
    requires RunOver(log, run.State()) && out == Printed(segs)
    ensures r == Printed(segs + [Template(id, run.State().slots, RunRows(log, run.State()))])
  {
    var slots := run.template[..];
    var names := JoinSlots(slots);
    ghost var rows := RowLines(RunRows(log, run.State()));
    ghost var head := AllLines(segs) + [HeaderLine(id, Names(slots), |run.indices|)];
    UnlinesSnoc(AllLines(segs), HeaderLine(id, Names(slots), |run.indices|));
    var header :=
      HEADER_OPEN + (Itoa(id) + (HEADER_COLON + (names + (HEADER_CLOSE + (Itoa(|run.indices|) + HEADER_END)))));
    r := out + (header + ['\n']);
    assert head + rows[..0] == head;
    for k := 0 to |run.indices|
      invariant r == Unlines(head + rows[..k])
    {
      var row := JoinRow(slots, log.toks[run.indices[k]]);
      UnlinesSnoc(head + rows[..k], row);
      TakeOneMore(head, rows, k + 1);
      r := r + (row + ['\n']);
    }
    assert rows[..|run.indices|] == rows;
    AllLinesSnoc(segs, Template(id, slots, RunRows(log, run.State())));
    SeqAssoc(AllLines(segs), [HeaderLine(id, Names(slots), |run.indices|)], rows);
  }

  method FlushRun(run: Run, log: Log, cfg: Config, nextId: nat, ghost segs: seq<Seg>, out: string)
    returns (nextId': nat, r: string)
    requires RunOver(log, run.State()) && out == Printed(segs)
    ensures var f := Flush(cfg, log, Miner(segs, nextId, Some(run.State())));
            nextId' == f.nextId && r == Printed(f.segs)
  {
    var constant := CountConstants(run.template[..]);
    var varying := run.template.Length - constant;
    var collapse := |run.indices| >= cfg.minRun && constant >= cfg.minConstantTokens && varying > 0;
    if !collapse {
      r := EmitVerbatim(run, log, segs, out);
      return nextId, r;
    }
    r := EmitTemplate(run, nextId, log, segs, out);
    return nextId + 1, r;
  }

  ghost predicate Holds(active: Run?, m: Miner)
    reads if active == null then {} else {active, active.template}
  {
    if active == null then m.active.None? else m.active == Some(active.State())
  }

  method EmitBlank(line: string, ghost toks: seq<string>, ghost segs: seq<Seg>, out: string) returns (r: string)
    requires out == Printed(segs)
    ensures r == Printed(segs + [Verbatim(line, toks)])
  {
    AllLinesSnoc(segs, Verbatim(line, toks));
    UnlinesSnoc(AllLines(segs), line);
    r := out + (line + ['\n']);
  }

  /** Flushes the active run, if there is one. */
  method FlushActive(active: Run?, log: Log, cfg: Config, nextId: nat, ghost m: Miner, out: string)
    returns (nextId': nat, r: string)
    requires MinerOver(log, m) && Holds(active, m) && out == Printed(m.segs) && nextId == m.nextId
    ensures nextId' == Flush(cfg, log, m).nextId && r == Printed(Flush(cfg, log, m).segs)
  {
    nextId', r := nextId, out;
    if active != null {
      nextId', r := FlushRun(active, log, cfg, nextId, m.segs, out);
    }
  }

  method Mine(lines: seq<string>, cfg: Config) returns (out: string)
    ensures out == Printed(Mined(cfg, lines))
  {
    var log := Log(lines, Tokenized(lines));
    out := "";
    var nextId := 1;
    var active: Run? := null;
    ghost var m := NOTHING;
    for i := 0 to |lines|
      invariant active != null ==> fresh(active) && fresh(active.template)
      invariant MinerOver(log, m) && Holds(active, m)
      invariant MineFrom(cfg, log, i, m) == MineFrom(cfg, log, 0, NOTHING)
      invariant nextId == m.nextId && out == Printed(m.segs)
    {
      ghost var before := m;
      m := Step(cfg, log, before, i);
      var toks := log.toks[i];
      if toks == [] {
        nextId, out := FlushActive(active, log, cfg, nextId, before, out);
        active := null;
        out := EmitBlank(lines[i], toks, Flush(cfg, log, before).segs, out);
        continue;
      }
      if active != null {
        var grows := active.ExtendsRun(toks, cfg);
        if grows {
          active.indices := active.indices + [i];
          active.MergeIntoTemplate(toks);
          continue;
        }
      }
      nextId, out := FlushActive(active, log, cfg, nextId, before, out);
      active := new Run(i, toks);
    }
    nextId, out := FlushActive(active, log, cfg, nextId, m, out);
  }

  datatype Outcome = Skipped | Reformatted(output: string, saved: nat)

  function DropFinalNewline(out: string, content: string): string {
    if (content == [] || content[|content| - 1] != '\n') && out != [] && out[|out| - 1] == '\n'
    then out[..|out| - 1] else out
  }

  /** The mined text when it is strictly shorter than the input, else the input itself. */
  ghost function OutputOf(cfg: Config, content: string): string {
    var result := DropFinalNewline(Printed(Mined(cfg, SplitLines(content))), content);
    if |result| < |content| then result else content
  }

  /** Skipped when empty or too short; otherwise that output, never longer than the
      input. */
  method Apply(content: string, cfg: Config) returns (r: Outcome)
    ensures r.Skipped? <==> content == "" || |SplitLines(content)| < cfg.minLines
    ensures r.Reformatted? ==> r.output == OutputOf(cfg, content) && |r.output| + r.saved == |content|
  {
    if content == "" {
      return Skipped;
    }
    var lines := SplitLines(content);
    if |lines| < cfg.minLines {
      return Skipped;
    }
    var out := Mine(lines, cfg);
    var result := DropFinalNewline(out, content);
    if |result| >= |content| {
      return Reformatted(content, 0);
    }
    return Reformatted(result, |content| - |result|);
  }
}
