/** Which lines make a run, and which runs collapse, said of the lines alone:
    extendsRun and flushRun of internal/reformats/log_template.go. */
module LogRuns {

  import opened Common
  import opened LogTemplate

  // ---- counting positions ----

  /** The first n positions at which line j is as every line of a, ..., j - 1, or those
      lines differ among themselves. */
  ghost function Fitting(toks: seq<seq<string>>, a: nat, j: nat, n: nat): set<nat>
    requires a < j < |toks| && n <= |toks[a]| && |toks[a]| == |toks[j]|
  {
    set p: nat | p < n && (Varies(toks, a, j, p) || toks[j][p] == toks[a][p])
  }

  /** The first n positions at which the lines a, ..., b - 1 differ. */
  ghost function Varying(toks: seq<seq<string>>, a: nat, b: nat, n: nat): set<nat> {
    set p: nat | p < n && Varies(toks, a, b, p)
  }

  lemma {:induction false} OneMoreIf(s: set<nat>, t: set<nat>, x: nat, c: bool)
    requires x !in s && t == s + if c then {x} else {}
    ensures |t| == |s| + if c then 1 else 0
  {
  }

  ghost function Matching(slots: seq<Slot>, line: seq<string>, n: nat): set<nat>
    requires n <= |slots| == |line|
  {
    set p: nat | p < n && (slots[p].wild || slots[p].tok == line[p])
  }

  lemma {:induction false} MatchesCount(slots: seq<Slot>, line: seq<string>, n: nat)
    requires n <= |slots| == |line|
    ensures Matches(slots, line, n) == |Matching(slots, line, n)|
  {
    if n == 0 {
      assert Matching(slots, line, 0) == {};
    } else {
      MatchesCount(slots, line, n - 1);
      OneMoreIf(Matching(slots, line, n - 1), Matching(slots, line, n), n - 1,
                slots[n - 1].wild || slots[n - 1].tok == line[n - 1]);
    }
  }

  ghost function WildAmong(slots: seq<Slot>, n: nat): set<nat>
    requires n <= |slots|
  {
    set p: nat | p < n && slots[p].wild
  }

  /** Wild slots among the first n. */
  ghost function WildsTo(slots: seq<Slot>, n: nat): nat
    requires n <= |slots|
  {
    if n == 0 then 0 else WildsTo(slots, n - 1) + (if slots[n - 1].wild then 1 else 0)
  }

  lemma {:induction false} WildsToTail(slots: seq<Slot>, n: nat)
    requires 0 < n <= |slots|
    ensures WildsTo(slots, n) == (if slots[0].wild then 1 else 0) + WildsTo(slots[1..], n - 1)
  {
    if n > 1 {
      WildsToTail(slots, n - 1);
    }
  }

  lemma {:induction false} WildsAre(slots: seq<Slot>)
    ensures Wilds(slots) == WildsTo(slots, |slots|)
  {
    if slots != [] {
      WildsAre(slots[1..]);
      WildsToTail(slots, |slots|);
    }
  }

  lemma {:induction false} WildsCount(slots: seq<Slot>, n: nat)
    requires n <= |slots|
    ensures WildsTo(slots, n) == |WildAmong(slots, n)|
  {
    if n == 0 {
      assert WildAmong(slots, 0) == {};
    } else {
      WildsCount(slots, n - 1);
      OneMoreIf(WildAmong(slots, n - 1), WildAmong(slots, n), n - 1, slots[n - 1].wild);
    }
  }

  /** A template's slots, said of the lines it merges. */
  lemma {:induction false} SlotsAre(toks: seq<seq<string>>, a: nat, b: nat)
    requires SameShape(toks, a, b)
    ensures forall p :: 0 <= p < |toks[a]| ==>
      Merged(toks, a, b)[p].tok == toks[a][p] && (Merged(toks, a, b)[p].wild <==> Varies(toks, a, b, p))
  {
    forall p | 0 <= p < |toks[a]|
      ensures Merged(toks, a, b)[p].tok == toks[a][p] && (Merged(toks, a, b)[p].wild <==> Varies(toks, a, b, p))
    {
      MergedIs(toks, a, b, p);
    }
  }

  lemma {:induction false} FittingIsMatching(toks: seq<seq<string>>, a: nat, j: nat)
    requires SameShape(toks, a, j) && j < |toks| && |toks[j]| == |toks[a]|
    ensures Matches(Merged(toks, a, j), toks[j], |toks[a]|) == |Fitting(toks, a, j, |toks[a]|)|
  {
    SlotsAre(toks, a, j);
    MatchesCount(Merged(toks, a, j), toks[j], |toks[a]|);
    assert Matching(Merged(toks, a, j), toks[j], |toks[a]|) == Fitting(toks, a, j, |toks[a]|);
  }

  lemma {:induction false} VaryingIsWild(toks: seq<seq<string>>, a: nat, b: nat)
    requires SameShape(toks, a, b)
    ensures Wilds(Merged(toks, a, b)) == |Varying(toks, a, b, |toks[a]|)|
  {
    SlotsAre(toks, a, b);
    WildsAre(Merged(toks, a, b));
    WildsCount(Merged(toks, a, b), |toks[a]|);
    assert WildAmong(Merged(toks, a, b), |toks[a]|) == Varying(toks, a, b, |toks[a]|);
  }

  // ---- runs ----

  /** Line j carries on the run of the lines from a on. */
  ghost predicate Joins(cfg: Config, toks: seq<seq<string>>, a: nat, j: nat)
    requires a < j < |toks|
  {
    |toks[j]| == |toks[a]| && cfg.similar(|Fitting(toks, a, j, |toks[a]|)|, |toks[a]|)
  }

  lemma {:induction false} ExtendsIff(cfg: Config, toks: seq<seq<string>>, a: nat, j: nat)
    requires SameShape(toks, a, j) && j < |toks|
    ensures Extends(cfg, Merged(toks, a, j), toks[j]) <==> Joins(cfg, toks, a, j)
  {
    if |toks[j]| == |toks[a]| {
      FittingIsMatching(toks, a, j);
    }
  }

  /** Lines a, ..., b - 1 carry on from line a, one by one. */
  ghost predicate Chained(cfg: Config, toks: seq<seq<string>>, a: nat, b: nat) {
    a < b <= |toks| && toks[a] != [] && forall j :: a < j < b ==> Joins(cfg, toks, a, j)
  }

  /** A whole run: the line after it does not carry it on. */
  ghost predicate IsRun(cfg: Config, toks: seq<seq<string>>, a: nat, b: nat) {
    Chained(cfg, toks, a, b) && (b < |toks| ==> !Joins(cfg, toks, a, b))
  }

  /** A run worth collapsing: enough lines, enough positions that agree, and one that
      does not. */
  ghost predicate Worth(cfg: Config, toks: seq<seq<string>>, a: nat, b: nat)
    requires a < b <= |toks|
  {
    var varying := |Varying(toks, a, b, |toks[a]|)|;
    b - a >= cfg.minRun && |toks[a]| - varying >= cfg.minConstantTokens && varying > 0
  }

  /** What the lines a, ..., b - 1 are emitted as. */
  ghost predicate BlockIs(cfg: Config, log: Log, a: nat, b: nat, segs: seq<Seg>) {
    && Sized(log) && a < b <= |log.lines|
    && if log.toks[a] == [] then b == a + 1 && segs == [Verbatim(log.lines[a], [])]
       else
         && IsRun(cfg, log.toks, a, b)
         && if Worth(cfg, log.toks, a, b) then |segs| == 1 && CollapsedTo(log.toks, segs[0], a, b)
            else AsTheyStand(log, a, b, segs)
  }

  /** One template: constant where the lines agree, with a row for each line. */
  ghost predicate CollapsedTo(toks: seq<seq<string>>, g: Seg, a: nat, b: nat)
    requires a < b <= |toks|
  {
    && g.Template? && |g.slots| == |toks[a]| && |g.rows| == b - a
    && (forall p :: 0 <= p < |g.slots| ==> g.slots[p].tok == toks[a][p] && (g.slots[p].wild <==> Varies(toks, a, b, p)))
    && (forall k :: 0 <= k < b - a ==> |toks[a + k]| == |g.slots| && g.rows[k] == WildToks(g.slots, toks[a + k]))
  }

  ghost predicate AsTheyStand(log: Log, a: nat, b: nat, segs: seq<Seg>) {
    && Sized(log) && a <= b <= |log.lines| && |segs| == b - a
    && forall k :: 0 <= k < b - a ==> segs[k] == Verbatim(log.lines[a + k], log.toks[a + k])
  }

  // ---- the loop lays out blocks ----

  /** The lines before a are laid out: block k is the lines cuts[k], ..., cuts[k + 1] - 1
      and the segments from at[k] on. */
  ghost predicate LaidOut(cfg: Config, log: Log, segs: seq<Seg>, a: nat, cuts: seq<nat>, at: seq<nat>) {
    && |cuts| == |at| > 0 && cuts[0] == 0 && at[0] == 0
    && cuts[|cuts| - 1] == a && at[|at| - 1] == |segs|
    && forall k :: 0 <= k < |cuts| - 1 ==> Block(cfg, log, segs, cuts, at, k)
  }

  ghost predicate Block(cfg: Config, log: Log, segs: seq<Seg>, cuts: seq<nat>, at: seq<nat>, k: nat)
    requires k + 1 < |cuts| == |at|
  {
    at[k] <= at[k + 1] <= |segs| && BlockIs(cfg, log, cuts[k], cuts[k + 1], segs[at[k]..at[k + 1]])
  }

  lemma {:induction false} OneMoreBlock(cfg: Config, log: Log, segs: seq<Seg>, a: nat, cuts: seq<nat>, at: seq<nat>,
                                        b: nat, more: seq<Seg>)
    requires LaidOut(cfg, log, segs, a, cuts, at) && BlockIs(cfg, log, a, b, more)
    ensures LaidOut(cfg, log, segs + more, b, cuts + [b], at + [|segs| + |more|])
  {
    var all, cuts', at' := segs + more, cuts + [b], at + [|segs| + |more|];
    forall k | 0 <= k < |cuts'| - 1 ensures Block(cfg, log, all, cuts', at', k) {
      if k < |cuts| - 1 {
        assert Block(cfg, log, segs, cuts, at, k);
        assert all[at[k]..at[k + 1]] == segs[at[k]..at[k + 1]];
      } else {
        assert all[|segs|..] == more;
        assert all[at'[k]..at'[k + 1]] == more;
      }
    }
  }

  lemma {:induction false} WorthIff(cfg: Config, log: Log, run: RunState, a: nat, b: nat)
    requires RunIs(log.toks, run, a, b)
    ensures Collapses(cfg, run) <==> Worth(cfg, log.toks, a, b)
  {
    VaryingIsWild(log.toks, a, b);
  }

  /** Flushing a whole run emits its block. */
  lemma {:induction false} FlushIsBlock(cfg: Config, log: Log, m: Miner, a: nat, b: nat) returns (more: seq<Seg>)
    requires m.active.Some? && RunIs(log.toks, m.active.value, a, b) && RunOver(log, m.active.value)
    requires IsRun(cfg, log.toks, a, b)
    ensures Flush(cfg, log, m).segs == m.segs + more && BlockIs(cfg, log, a, b, more)
  {
    var run := m.active.value;
    WorthIff(cfg, log, run, a, b);
    if Collapses(cfg, run) {
      more := [Template(m.nextId, run.slots, RunRows(log, run))];
      TemplateFits(cfg, log, run, m.nextId, a, b);
      SlotsAre(log.toks, a, b);
    } else {
      more := RunVerbatim(log, run);
      forall k | 0 <= k < b - a ensures more[k] == Verbatim(log.lines[a + k], log.toks[a + k]) {
        assert run.indices[k] == a + k;
      }
    }
  }

  /** What the loop has done after i lines. */
  ghost predicate Grown(cfg: Config, log: Log, m: Miner, a: nat, i: nat, cuts: seq<nat>, at: seq<nat>) {
    && MinerOver(log, m) && a <= i <= |log.lines| && LaidOut(cfg, log, m.segs, a, cuts, at)
    && if m.active.None? then a == i else RunIs(log.toks, m.active.value, a, i) && Chained(cfg, log.toks, a, i)
  }

  /** Flushing at i, where the run is over. */
  lemma {:induction false} FlushGrown(cfg: Config, log: Log, m: Miner, a: nat, i: nat, cuts: seq<nat>, at: seq<nat>)
    returns (cuts': seq<nat>, at': seq<nat>)
    requires Grown(cfg, log, m, a, i, cuts, at)
    requires m.active.Some? && i < |log.lines| ==> !Joins(cfg, log.toks, a, i)
    ensures Grown(cfg, log, Flush(cfg, log, m), i, i, cuts', at')
  {
    cuts', at' := cuts, at;
    if m.active.Some? {
      var more := FlushIsBlock(cfg, log, m, a, i);
      OneMoreBlock(cfg, log, m.segs, a, cuts, at, i, more);
      cuts', at' := cuts + [i], at + [|m.segs| + |more|];
    }
  }

  lemma {:induction false} BlankGrown(cfg: Config, log: Log, f: Miner, i: nat, cuts: seq<nat>, at: seq<nat>)
    requires Grown(cfg, log, f, i, i, cuts, at) && f.active.None? && i < |log.lines| && log.toks[i] == []
    ensures Grown(cfg, log, f.(segs := f.segs + [Verbatim(log.lines[i], [])]), i + 1, i + 1, cuts + [i + 1],
                  at + [|f.segs| + 1])
  {
    OneMoreBlock(cfg, log, f.segs, i, cuts, at, i + 1, [Verbatim(log.lines[i], [])]);
  }

  lemma {:induction false} StartGrown(cfg: Config, log: Log, f: Miner, i: nat, cuts: seq<nat>, at: seq<nat>)
    requires Grown(cfg, log, f, i, i, cuts, at) && f.active.None? && i < |log.lines| && log.toks[i] != []
    ensures Grown(cfg, log, f.(active := Some(RunState([i], Started(log.toks[i])))), i, i + 1, cuts, at)
  {
    StartIs(log.toks, i);
  }

  lemma {:induction false} CarryGrown(cfg: Config, log: Log, m: Miner, a: nat, i: nat, cuts: seq<nat>, at: seq<nat>)
    requires Grown(cfg, log, m, a, i, cuts, at) && m.active.Some? && i < |log.lines| && Joins(cfg, log.toks, a, i)
    ensures Grown(cfg, log, m.(active := Some(RunState(m.active.value.indices + [i],
                                                       Merge(m.active.value.slots, log.toks[i])))), a, i + 1, cuts, at)
  {
    MergeIs(log.toks, m.active.value, a, i);
  }

  lemma {:induction false} StepGrown(cfg: Config, log: Log, m: Miner, a: nat, i: nat, cuts: seq<nat>, at: seq<nat>)
    returns (a': nat, cuts': seq<nat>, at': seq<nat>)
    requires Grown(cfg, log, m, a, i, cuts, at) && i < |log.lines|
    ensures Grown(cfg, log, Step(cfg, log, m, i), a', i + 1, cuts', at')
  {
    if m.active.Some? {
      ExtendsIff(cfg, log.toks, a, i);
    }
    if m.active.Some? && Joins(cfg, log.toks, a, i) {
      a', cuts', at' := a, cuts, at;
      CarryGrown(cfg, log, m, a, i, cuts, at);
    } else {
      cuts', at' := FlushGrown(cfg, log, m, a, i, cuts, at);
      var f := Flush(cfg, log, m);
      if log.toks[i] == [] {
        BlankGrown(cfg, log, f, i, cuts', at');
        a', cuts', at' := i + 1, cuts' + [i + 1], at' + [|f.segs| + 1];
      } else {
        a' := i;
        StartGrown(cfg, log, f, i, cuts', at');
      }
    }
  }

  lemma {:induction false} LoopGrown(cfg: Config, log: Log, m: Miner, a: nat, i: nat, cuts: seq<nat>, at: seq<nat>)
    returns (a': nat, cuts': seq<nat>, at': seq<nat>)
    requires Grown(cfg, log, m, a, i, cuts, at)
    ensures Grown(cfg, log, MineFrom(cfg, log, i, m), a', |log.lines|, cuts', at')
    decreases |log.lines| - i
  {
    a', cuts', at' := a, cuts, at;
    if i < |log.lines| {
      a', cuts', at' := StepGrown(cfg, log, m, a, i, cuts, at);
      a', cuts', at' := LoopGrown(cfg, log, Step(cfg, log, m, i), a', i + 1, cuts', at');
    }
  }

  /** What is emitted is the input cut, from the first line on, into blank lines and
      runs as long as they go, each run collapsed exactly when that is worth it and
      copied line by line otherwise. */
  lemma {:induction false} RunsAreExact(cfg: Config, lines: seq<string>) returns (cuts: seq<nat>, at: seq<nat>)
    ensures LaidOut(cfg, Log(lines, Tokenized(lines)), Mined(cfg, lines), |lines|, cuts, at)
  {
    var log := Log(lines, Tokenized(lines));
    var a;
    a, cuts, at := LoopGrown(cfg, log, NOTHING, 0, 0, [0], [0]);
    cuts, at := FlushGrown(cfg, log, MineFrom(cfg, log, 0, NOTHING), a, |lines|, cuts, at);
  }
}
