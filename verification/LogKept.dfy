/** Which log lines are kept, and why: internal/compress/log_compressor.go. */
module LogKept {

  import opened Common
  import opened IntSets
  import opened Orchestration
  import opened SamplePlan
  import opened LogSelect

  // ---- the best of a category ----

  lemma {:induction false} RankedTogether(parsed: seq<Line>, s: set<int>, a: int, b: int) returns (i: nat, j: nat)
    requires Within(s, |parsed|) && a in s && b in s && a != b
    ensures i < |Ranked(parsed, s)| && j < |Ranked(parsed, s)|
    ensures Ranked(parsed, s)[i] == a && Ranked(parsed, s)[j] == b
    ensures i < j <==> Better(parsed, a, b)
  {
    var out := Ranked(parsed, s);
    i :| 0 <= i < |out| && out[i] == a;
    j :| 0 <= j < |out| && out[j] == b;
    assert i < j ==> Better(parsed, out[i], out[j]);
    assert j < i ==> Better(parsed, out[j], out[i]);
  }

  /** A line picked that nothing forced has a higher score than every line of its
      category left out, or the same and stands before it. */
  lemma {:induction false} PickIsBest(parsed: seq<Line>, idxs: seq<int>, maxN: int, keepFirst: bool, keepLast: bool,
                                      x: int, y: int)
    requires Indices(idxs, |parsed|) && idxs != [] && maxN > 0
    requires x in PickSet(parsed, idxs, maxN, keepFirst, keepLast) && x !in Forced(idxs, keepFirst, keepLast)
    requires y in idxs && y !in PickSet(parsed, idxs, maxN, keepFirst, keepLast)
    ensures 0 <= x < |parsed| && 0 <= y < |parsed|
    ensures parsed[x].score > parsed[y].score || (parsed[x].score == parsed[y].score && x < y)
  {
    var all, forced := SetOf(idxs), Forced(idxs, keepFirst, keepLast);
    IndicesWithin(idxs, |parsed|);
    PickWithin(parsed, idxs, maxN, keepFirst, keepLast);
    var ranked := Ranked(parsed, all);
    var k := TopUpIsPrefix(forced, ranked, SatSub(maxN, |forced|));
    var i, j := RankedTogether(parsed, all, x, y);
    assert x in SetOf(ranked[..k]);
    var p :| 0 <= p < k && ranked[..k][p] == x;
    if j < k {
      InPrefix(ranked, k, j);
    }
    RankedOnce(parsed, all);
  }

  lemma {:induction false} InPrefix(s: seq<int>, k: nat, j: nat)
    requires j < k <= |s|
    ensures s[j] in SetOf(s[..k])
  {
    assert s[..k][j] == s[j];
  }

  lemma {:induction false} RankedOnce(parsed: seq<Line>, s: set<int>)
    requires Within(s, |parsed|)
    ensures Unique(Ranked(parsed, s))
  {
    var out := Ranked(parsed, s);
    forall i, j | 0 <= i < j < |out| ensures out[i] != out[j] {
      assert Better(parsed, out[i], out[j]);
    }
  }

  // ---- every line kept has its reason ----

  /** The lines picked among those of one level. */
  ghost function Picked(cfg: Config, parsed: seq<Line>, level: Level): set<int> {
    PickSet(parsed, OfLevel(parsed, level, |parsed|), cfg.maxErrors, cfg.keepFirstError, cfg.keepLastError)
  }

  /** Line j stands within the context of a line picked among those of the level. */
  ghost predicate InContext(cfg: Config, parsed: seq<Line>, level: Level, j: int) {
    exists i :: i in Picked(cfg, parsed, level)
      && (j == i || i - cfg.errorContextLines <= j <= i + cfg.errorContextLines)
  }

  lemma {:induction false} WindowIff(cfg: Config, parsed: seq<Line>, level: Level, j: int)
    ensures j in LogSelect.Windows(Picked(cfg, parsed, level), Depth(cfg.errorContextLines), |parsed|)
       <==> 0 <= j < |parsed| && InContext(cfg, parsed, level, j)
  {
    var chosen, k := Picked(cfg, parsed, level), Depth(cfg.errorContextLines);
    if InContext(cfg, parsed, level, j) {
      var i :| i in chosen && (j == i || i - cfg.errorContextLines <= j <= i + cfg.errorContextLines);
      assert i - k <= j <= i + k;
    }
    if NearSome(chosen, k, j) {
      var i :| i in chosen && i - k <= j <= i + k;
      assert j == i || i - cfg.errorContextLines <= j <= i + cfg.errorContextLines;
    }
  }

  /** Before the cap a line is kept exactly when it stands in the context of a picked
      error or failure, is a kept warning or a kept trace line, or is a summary line and
      those are kept. */
  lemma {:induction false} KeptIff(cfg: Config, parsed: seq<Line>, j: int)
    requires 0 <= j < |parsed|
    ensures j in KeepSet(cfg, parsed)
       <==> InContext(cfg, parsed, LevelError, j) || InContext(cfg, parsed, LevelFail, j)
            || j in Warnings(cfg, parsed) || KeptTrace(parsed, j, cfg.maxStackTraces, cfg.stackTraceMaxLines)
            || (cfg.keepSummaryLines && parsed[j].isSummary)
  {
    WindowIff(cfg, parsed, LevelError, j);
    WindowIff(cfg, parsed, LevelFail, j);
  }

  lemma {:induction false} OfLevelAscends(parsed: seq<Line>, level: Level, n: nat)
    requires n <= |parsed|
    ensures IntSets.Ascending(OfLevel(parsed, level, n))
  {
    if n > 0 {
      OfLevelAscends(parsed, level, n - 1);
    }
  }

  /** Line i is the first or the last of its level, and such lines are kept. */
  ghost predicate IsForced(cfg: Config, parsed: seq<Line>, i: int)
    requires 0 <= i < |parsed|
  {
    || (cfg.keepFirstError && forall h :: 0 <= h < i ==> parsed[h].level != parsed[i].level)
    || (cfg.keepLastError && forall h :: i < h < |parsed| ==> parsed[h].level != parsed[i].level)
  }

  lemma {:induction false} ForcedIsPicked(cfg: Config, parsed: seq<Line>, i: int)
    requires 0 <= i < |parsed| && cfg.maxErrors > 0 && IsForced(cfg, parsed, i)
    ensures i in Picked(cfg, parsed, parsed[i].level)
  {
    var idxs := OfLevel(parsed, parsed[i].level, |parsed|);
    OfLevelAscends(parsed, parsed[i].level, |parsed|);
    assert i in idxs;
    var k :| 0 <= k < |idxs| && idxs[k] == i;
    assert idxs[0] in idxs && idxs[|idxs| - 1] in idxs;
    PickWithin(parsed, idxs, cfg.maxErrors, cfg.keepFirstError, cfg.keepLastError);
  }

  /** The first and the last error and failure, when asked for, are kept with all the
      context around them, whatever else the log holds. */
  lemma {:induction false} ForcedLinesAreKept(cfg: Config, parsed: seq<Line>, i: int, j: int)
    requires 0 <= i < |parsed| && (parsed[i].level == LevelError || parsed[i].level == LevelFail)
    requires cfg.maxErrors > 0 && IsForced(cfg, parsed, i)
    requires 0 <= j < |parsed| && (j == i || i - cfg.errorContextLines <= j <= i + cfg.errorContextLines)
    ensures j in KeepSet(cfg, parsed)
  {
    ForcedIsPicked(cfg, parsed, i);
    KeptIff(cfg, parsed, j);
  }

  /** Without a cap, or within it, the result lists exactly the lines kept. */
  lemma {:induction false} UncappedListsAll(cfg: Config, parsed: seq<Line>, cap: int)
    requires Within(KeepSet(cfg, parsed), |parsed|) && (cap <= 0 || |KeepSet(cfg, parsed)| <= cap)
    ensures forall j :: j in Sorted(Capped(parsed, KeepSet(cfg, parsed), cap)) <==> j in KeepSet(cfg, parsed)
  {
  }

  // ---- which warnings ----

  lemma {:induction false} OfLevelOnce(parsed: seq<Line>, level: Level, y: int, x: int) returns (p: nat, q: nat)
    requires 0 <= y < x < |parsed| && parsed[x].level == level && parsed[y].level == level
    ensures var order := OfLevel(parsed, level, |parsed|);
            p < q < |order| && order[p] == y && order[q] == x && Unique(order)
  {
    var order := OfLevel(parsed, level, |parsed|);
    OfLevelAscends(parsed, level, |parsed|);
    assert x in order && y in order;
    p :| 0 <= p < |order| && order[p] == y;
    q :| 0 <= q < |order| && order[q] == x;
  }

  /** Warnings are taken from the top: one above a kept one is kept too, or, under
      dedup, a kept one above it has its key. */
  lemma {:induction false} WarningsFromTheTop(cfg: Config, parsed: seq<Line>, y: int, x: int)
    requires 0 <= y < x < |parsed| && parsed[y].level == LevelWarn && x in Warnings(cfg, parsed)
    ensures parsed[x].level == LevelWarn
    ensures y in Warnings(cfg, parsed)
         || (cfg.dedupeWarnings
             && exists z :: 0 <= z < y && z in Warnings(cfg, parsed) && parsed[z].dedupKey == parsed[y].dedupKey)
  {
    var order, limit := OfLevel(parsed, LevelWarn, |parsed|), Depth(cfg.maxWarnings);
    WarningIsWarning(cfg, parsed, x);
    var p, q := OfLevelOnce(parsed, LevelWarn, y, x);
    OfLevelInBounds(parsed, LevelWarn);
    if cfg.dedupeWarnings {
      GreedyInOrder(order, DedupKeys(parsed), {}, {}, limit, p, q);
      if y !in Warnings(cfg, parsed) {
        var h :| 0 <= h < p && order[h] in Warnings(cfg, parsed)
                 && DedupKeys(parsed)[order[h]] == DedupKeys(parsed)[order[p]];
        OfLevelAscends(parsed, LevelWarn, |parsed|);
        assert order[h] < y;
      }
    } else {
      var k := TopUpIsPrefix({}, order, limit);
      var i :| 0 <= i < k && order[..k][i] == x;
      assert order[..k][p] == y;
    }
  }

  lemma {:induction false} WarningIsWarning(cfg: Config, parsed: seq<Line>, x: int)
    requires x in Warnings(cfg, parsed)
    ensures 0 <= x < |parsed| && parsed[x].level == LevelWarn
  {
    var order := OfLevel(parsed, LevelWarn, |parsed|);
    if cfg.dedupeWarnings {
      WarningsAreExact(cfg, parsed);
    } else {
      TopUpWithin({}, order, Depth(cfg.maxWarnings));
    }
  }

  /** Without dedup as many warnings are kept as the limit or the log has. */
  lemma {:induction false} WarningCount(cfg: Config, parsed: seq<Line>)
    requires !cfg.dedupeWarnings
    ensures |Warnings(cfg, parsed)|
         == Min(Depth(cfg.maxWarnings), |set i | 0 <= i < |parsed| && parsed[i].level == LevelWarn|)
  {
    var order := OfLevel(parsed, LevelWarn, |parsed|);
    TopUpSize({}, order, Depth(cfg.maxWarnings));
    assert SetOf(order) - {} == set i | 0 <= i < |parsed| && parsed[i].level == LevelWarn;
  }

  // ---- which trace lines ----

  ghost predicate BlockBegins(parsed: seq<Line>, p: int)
    requires 0 <= p < |parsed|
  {
    parsed[p].isStackTrace && (p == 0 || !parsed[p - 1].isStackTrace)
  }

  /** The lines before n at which a block of trace lines starts. */
  ghost function BlockStarts(parsed: seq<Line>, n: nat): set<int>
    requires n <= |parsed|
  {
    set p | 0 <= p < n && BlockBegins(parsed, p)
  }

  lemma {:induction false} BlocksCount(parsed: seq<Line>, n: nat)
    requires n <= |parsed|
    ensures BlocksBefore(parsed, n) == |BlockStarts(parsed, n)|
  {
    if n == 0 {
      assert BlockStarts(parsed, 0) == {};
    } else {
      BlocksCount(parsed, n - 1);
      var more: set<int> := if StartsBlock(parsed, n - 1) then {n - 1} else {};
      assert BlockStarts(parsed, n) == BlockStarts(parsed, n - 1) + more;
    }
  }

  /** Lines s, ..., j are trace lines and s starts their block. */
  ghost predicate BlockFrom(parsed: seq<Line>, s: int, j: int) {
    && 0 <= s <= j < |parsed| && (s == 0 || !parsed[s - 1].isStackTrace)
    && forall k :: s <= k <= j ==> parsed[k].isStackTrace
  }

  /** A trace line is kept exactly when its block is among the first so many and it is
      among the first so many lines of it. */
  lemma {:induction false} TraceIff(parsed: seq<Line>, s: int, j: int, maxBlocks: int, maxLines: int)
    requires BlockFrom(parsed, s, j)
    ensures KeptTrace(parsed, j, maxBlocks, maxLines)
       <==> |BlockStarts(parsed, s + 1)| <= maxBlocks && j - s + 1 <= maxLines
  {
    SameBlock(parsed, s, j);
    SameBlock(parsed, s, s);
    BlocksCount(parsed, s + 1);
  }
}
