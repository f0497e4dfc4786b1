/** Capped selection of log lines: internal/compress/log_compressor.go. */
module LogSelect {

  // The chosen sets live in Go maps, whose iteration order is arbitrary; here they
  // are sets iterated in an arbitrary order.

  import opened Common
  import opened IntSets
  import opened Orchestration

  datatype Level = LevelUnknown | LevelError | LevelFail | LevelWarn | LevelOther

  /** A parsed line: its classification, its score, and its warning dedup key. */
  datatype Line = Line(level: Level, isStackTrace: bool, isSummary: bool, score: int, dedupKey: string)

  datatype Config = Config(maxErrors: int, errorContextLines: int, keepFirstError: bool, keepLastError: bool,
                           maxStackTraces: int, stackTraceMaxLines: int, maxWarnings: int, dedupeWarnings: bool,
                           keepSummaryLines: bool)

  // ---- the total order: score descending, index ascending ----

  predicate Better(parsed: seq<Line>, a: int, b: int)
    requires 0 <= a < |parsed| && 0 <= b < |parsed|
  {
    parsed[a].score > parsed[b].score || (parsed[a].score == parsed[b].score && a < b)
  }

  ghost predicate Within(s: set<int>, n: nat) { forall x :: x in s ==> 0 <= x < n }

  ghost predicate Indices(out: seq<int>, n: nat) { forall k :: 0 <= k < |out| ==> 0 <= out[k] < n }

  /** The elements of s, best first. */
  ghost predicate Ranks(parsed: seq<Line>, out: seq<int>, s: set<int>) {
    && Indices(out, |parsed|)
    && (forall i, j :: 0 <= i < j < |out| ==> Better(parsed, out[i], out[j]))
    && (forall x :: x in out <==> x in s)
  }

  lemma {:induction false} RanksTail(parsed: seq<Line>, out: seq<int>, s: set<int>)
    requires Ranks(parsed, out, s) && out != []
    ensures Ranks(parsed, out[1..], s - {out[0]})
  {
    forall x ensures x in out[1..] <==> x in s - {out[0]} {
      if x in out[1..] {
        var i :| 0 <= i < |out[1..]| && out[1..][i] == x;
        assert out[i + 1] == x && Better(parsed, out[0], out[i + 1]);
      }
      if x in s - {out[0]} {
        var i :| 0 <= i < |out| && out[i] == x;
        assert out[1..][i - 1] == x;
      }
    }
  }

  lemma {:induction false} HeadRanked(parsed: seq<Line>, out: seq<int>, s: set<int>)
    requires Ranks(parsed, out, s)
    ensures out != [] ==> out[0] in s
    ensures s != {} ==> out != []
  {
    if out != [] {
      assert out[0] in out;
    }
    EmptyOrNot(s);
  }

  lemma {:induction false} HeadIsBest(parsed: seq<Line>, out: seq<int>, s: set<int>, x: int)
    requires Ranks(parsed, out, s) && x in s
    ensures |out| > 0 && 0 <= x < |parsed| && (x == out[0] || Better(parsed, out[0], x))
  {
    var i :| 0 <= i < |out| && out[i] == x;
    assert i > 0 ==> Better(parsed, out[0], out[i]);
  }

  /** The ranking of a set is unique, so whatever order it is gathered in, sorting
      gives the same list. */
  lemma {:induction false} RankingIsUnique(parsed: seq<Line>, a: seq<int>, b: seq<int>, s: set<int>)
    requires Ranks(parsed, a, s) && Ranks(parsed, b, s)
    ensures a == b
    decreases |a|
  {
    HeadRanked(parsed, a, s);
    HeadRanked(parsed, b, s);
    if s != {} {
      HeadIsBest(parsed, a, s, b[0]);
      HeadIsBest(parsed, b, s, a[0]);
      RanksTail(parsed, a, s);
      RanksTail(parsed, b, s);
      RankingIsUnique(parsed, a[1..], b[1..], s - {a[0]});
      assert a == [a[0]] + a[1..] && b == [b[0]] + b[1..];
    }
  }

  function InsertRanked(parsed: seq<Line>, s: seq<int>, x: int): (r: seq<int>)
    requires (forall k :: 0 <= k < |s| ==> 0 <= s[k] < |parsed|) && 0 <= x < |parsed|
    ensures forall k :: 0 <= k < |r| ==> 0 <= r[k] < |parsed|
    ensures forall y :: y in r <==> y in s || y == x
  {
    if s == [] || Better(parsed, x, s[0]) then [x] + s
    else [s[0]] + InsertRanked(parsed, s[1..], x)
  }

  lemma {:induction false} InsertRanks(parsed: seq<Line>, out: seq<int>, s: set<int>, x: int)
    requires Ranks(parsed, out, s) && 0 <= x < |parsed| && x !in s
    ensures Ranks(parsed, InsertRanked(parsed, out, x), s + {x})
  {
    var r := InsertRanked(parsed, out, x);
    if out == [] {
    } else if Better(parsed, x, out[0]) {
      forall i, j | 0 <= i < j < |r| ensures Better(parsed, r[i], r[j]) {
        if i == 0 && j > 1 {
          assert Better(parsed, out[0], out[j - 1]);
        }
      }
    } else {
      RanksTail(parsed, out, s);
      InsertRanks(parsed, out[1..], s - {out[0]}, x);
      var rest := InsertRanked(parsed, out[1..], x);
      assert out[0] in out;
      forall i, j | 0 <= i < j < |r| ensures Better(parsed, r[i], r[j]) {
        if i == 0 {
          assert rest[j - 1] in rest;
          if rest[j - 1] != x {
            var k :| 0 <= k < |out[1..]| && out[1..][k] == rest[j - 1];
            assert Better(parsed, out[0], out[k + 1]);
          }
        }
      }
    }
  }

  /** The elements of a set, best first. */
  ghost function Ranked(parsed: seq<Line>, s: set<int>): (out: seq<int>)
    requires Within(s, |parsed|)
    ensures Ranks(parsed, out, s)
  {
    if s == {} then []
    else
      var x := Least(s);
      InsertRanks(parsed, Ranked(parsed, s - {x}), s - {x}, x);
      assert (s - {x}) + {x} == s;
      InsertRanked(parsed, Ranked(parsed, s - {x}), x)
  }

  /** Gathers a set in whatever order it is iterated, and sorts by score. */
  method RankSet(parsed: seq<Line>, s: set<int>) returns (out: seq<int>)
    requires Within(s, |parsed|)
    ensures out == Ranked(parsed, s)
  {
    out := [];
    var rest := s;
    while rest != {}
      invariant rest <= s && Ranks(parsed, out, s - rest)
      decreases |rest|
    {
      EmptyOrNot(rest);
      var x :| x in rest;
      InsertRanks(parsed, out, s - rest, x);
      assert s - (rest - {x}) == (s - rest) + {x};
      out := InsertRanked(parsed, out, x);
      rest := rest - {x};
    }
    assert s - rest == s;
    RankingIsUnique(parsed, out, Ranked(parsed, s), s);
  }

  lemma {:induction false} RankedIsAll(parsed: seq<Line>, s: set<int>)
    requires Within(s, |parsed|)
    ensures SetOf(Ranked(parsed, s)) == s && |Ranked(parsed, s)| == |s|
  {
    SameElements(Ranked(parsed, s), s);
    RankedCount(parsed, Ranked(parsed, s), s);
  }

  lemma {:induction false} RankedCount(parsed: seq<Line>, out: seq<int>, s: set<int>)
    requires Ranks(parsed, out, s)
    ensures |out| == |s|
    decreases |out|
  {
    HeadRanked(parsed, out, s);
    if s != {} {
      RanksTail(parsed, out, s);
      RankedCount(parsed, out[1..], s - {out[0]});
    }
  }

  lemma {:induction false} SameElements(order: seq<int>, s: set<int>)
    requires forall x :: x in order <==> x in s
    ensures SetOf(order) == s
  {
    forall x ensures x in SetOf(order) <==> x in s {
    }
  }

  // ---- a category's lines ----

  /** The first and the last, when forced. */
  ghost function Forced(idxs: seq<int>, keepFirst: bool, keepLast: bool): set<int>
    requires idxs != []
  {
    (if keepFirst then {idxs[0]} else {}) + (if keepLast then {idxs[|idxs| - 1]} else {})
  }

  lemma {:induction false} IndicesWithin(idxs: seq<int>, n: nat)
    requires Indices(idxs, n)
    ensures Within(SetOf(idxs), n)
  {
  }

  /** Forced lines, topped up with the best of the category up to maxN. */
  ghost function PickSet(parsed: seq<Line>, idxs: seq<int>, maxN: int, keepFirst: bool, keepLast: bool): set<int>
    requires Indices(idxs, |parsed|)
  {
    if idxs == [] || maxN <= 0 then {}
    else
      var forced := Forced(idxs, keepFirst, keepLast);
      IndicesWithin(idxs, |parsed|);
      TopUp(forced, Ranked(parsed, SetOf(idxs)), SatSub(maxN, |forced|))
  }

  method PickCategory(parsed: seq<Line>, idxs: seq<int>, maxN: int, keepFirst: bool, keepLast: bool)
    returns (chosen: set<int>)
    requires Indices(idxs, |parsed|)
    ensures chosen == PickSet(parsed, idxs, maxN, keepFirst, keepLast)
  {
    if |idxs| == 0 || maxN <= 0 {
      return {};
    }
    chosen := {};
    if keepFirst {
      chosen := chosen + {idxs[0]};
    }
    if keepLast {
      chosen := chosen + {idxs[|idxs| - 1]};
    }
    assert chosen == Forced(idxs, keepFirst, keepLast);
    IndicesWithin(idxs, |parsed|);
    assert (set i | i in idxs) == SetOf(idxs);
    var rest := RankSet(parsed, set i | i in idxs);
    var remaining;
    chosen, remaining := AddUnder(chosen, rest, SatSub(maxN, |chosen|));
  }

  lemma {:induction false} ForcedIsPart(idxs: seq<int>, keepFirst: bool, keepLast: bool)
    requires idxs != []
    ensures var forced, all := Forced(idxs, keepFirst, keepLast), SetOf(idxs);
            forced <= all && |all - forced| == |all| - |forced|
  {
    var forced, all := Forced(idxs, keepFirst, keepLast), SetOf(idxs);
    assert idxs[0] in idxs && idxs[|idxs| - 1] in idxs;
    assert all == forced + (all - forced);
  }

  /** Exactly min(maxN, lines) are picked, except that forced lines are never given
      up. */
  lemma {:induction false} PickSize(parsed: seq<Line>, idxs: seq<int>, maxN: int, keepFirst: bool, keepLast: bool)
    requires Indices(idxs, |parsed|) && idxs != [] && maxN > 0
    ensures |PickSet(parsed, idxs, maxN, keepFirst, keepLast)|
         == Max(|Forced(idxs, keepFirst, keepLast)|, Min(maxN, |SetOf(idxs)|))
  {
    var forced, all := Forced(idxs, keepFirst, keepLast), SetOf(idxs);
    IndicesWithin(idxs, |parsed|);
    TopUpSize(forced, Ranked(parsed, all), SatSub(maxN, |forced|));
    RankedIsAll(parsed, all);
    ForcedIsPart(idxs, keepFirst, keepLast);
  }

  /** Only lines of the category are picked, the forced ones among them. */
  lemma {:induction false} PickWithin(parsed: seq<Line>, idxs: seq<int>, maxN: int, keepFirst: bool, keepLast: bool)
    requires Indices(idxs, |parsed|)
    ensures PickSet(parsed, idxs, maxN, keepFirst, keepLast) <= SetOf(idxs)
    ensures idxs != [] && maxN > 0 ==>
            Forced(idxs, keepFirst, keepLast) <= PickSet(parsed, idxs, maxN, keepFirst, keepLast)
  {
    if idxs != [] && maxN > 0 {
      var forced, all := Forced(idxs, keepFirst, keepLast), SetOf(idxs);
      IndicesWithin(idxs, |parsed|);
      TopUpWithin(forced, Ranked(parsed, all), SatSub(maxN, |forced|));
      RankedIsAll(parsed, all);
      ForcedIsPart(idxs, keepFirst, keepLast);
    }
  }

  /** The limit is exceeded exactly when it is one and two different lines are forced. */
  lemma {:induction false} PickExceedsIff(parsed: seq<Line>, idxs: seq<int>, maxN: int, keepFirst: bool, keepLast: bool)
    requires Indices(idxs, |parsed|) && idxs != [] && maxN > 0
    ensures |PickSet(parsed, idxs, maxN, keepFirst, keepLast)| > maxN
       <==> maxN == 1 && keepFirst && keepLast && idxs[0] != idxs[|idxs| - 1]
  {
    PickSize(parsed, idxs, maxN, keepFirst, keepLast);
    ForcedSize(idxs, keepFirst, keepLast);
  }

  lemma {:induction false} ForcedSize(idxs: seq<int>, keepFirst: bool, keepLast: bool)
    requires idxs != []
    ensures |Forced(idxs, keepFirst, keepLast)| ==
      if keepFirst && keepLast && idxs[0] != idxs[|idxs| - 1] then 2 else if keepFirst || keepLast then 1 else 0
  {
    if keepFirst && keepLast {
      if idxs[0] != idxs[|idxs| - 1] {
        assert Forced(idxs, keepFirst, keepLast) == {idxs[0], idxs[|idxs| - 1]};
      } else {
        assert Forced(idxs, keepFirst, keepLast) == {idxs[0]};
      }
    } else if keepFirst {
      assert Forced(idxs, keepFirst, keepLast) == {idxs[0]};
    } else if keepLast {
      assert Forced(idxs, keepFirst, keepLast) == {idxs[|idxs| - 1]};
    }
  }

  // ---- stack traces ----

  /** Where the contiguous block of trace lines holding j starts. */
  ghost function BlockStart(parsed: seq<Line>, j: nat): (s: nat)
    requires j < |parsed| && parsed[j].isStackTrace
    ensures s <= j && forall k :: s <= k <= j ==> parsed[k].isStackTrace
    ensures s == 0 || !parsed[s - 1].isStackTrace
  {
    if j == 0 || !parsed[j - 1].isStackTrace then j else BlockStart(parsed, j - 1)
  }

  ghost predicate StartsBlock(parsed: seq<Line>, p: nat)
    requires p < |parsed|
  {
    parsed[p].isStackTrace && (p == 0 || !parsed[p - 1].isStackTrace)
  }

  /** How many blocks start before position p. */
  ghost function BlocksBefore(parsed: seq<Line>, p: nat): nat
    requires p <= |parsed|
  {
    if p == 0 then 0 else BlocksBefore(parsed, p - 1) + (if StartsBlock(parsed, p - 1) then 1 else 0)
  }

  /** One of the first maxLines lines of one of the first maxBlocks blocks. */
  ghost predicate KeptTrace(parsed: seq<Line>, j: int, maxBlocks: int, maxLines: int) {
    && 0 <= j < |parsed| && parsed[j].isStackTrace
    && BlocksBefore(parsed, BlockStart(parsed, j)) < maxBlocks && j - BlockStart(parsed, j) < maxLines
  }

  ghost predicate TracesBelow(parsed: seq<Line>, traces: set<int>, i: int, maxBlocks: int, maxLines: int) {
    forall j :: j in traces <==> j < i && KeptTrace(parsed, j, maxBlocks, maxLines)
  }

  lemma {:induction false} BlocksGrow(parsed: seq<Line>, p: nat, q: nat)
    requires p <= q <= |parsed|
    ensures BlocksBefore(parsed, p) <= BlocksBefore(parsed, q)
  {
    if p < q {
      BlocksGrow(parsed, p, q - 1);
    }
  }

  lemma {:induction false} SameBlock(parsed: seq<Line>, start: nat, j: nat)
    requires start <= j < |parsed| && StartsBlock(parsed, start)
    requires forall k :: start <= k <= j ==> parsed[k].isStackTrace
    ensures BlockStart(parsed, j) == start && BlocksBefore(parsed, j + 1) == BlocksBefore(parsed, start) + 1
  {
    if start < j {
      SameBlock(parsed, start, j - 1);
    }
  }

  function Span(a: int, b: int): (r: set<int>)
    ensures forall j :: j in r <==> a <= j < b
    decreases b - a
  {
    if a >= b then {} else {a} + Span(a + 1, b)
  }

  function Truncated(start: int, end: int, maxLines: int): int {
    if end - start > maxLines then start + maxLines else end
  }

  lemma {:induction false} BlockAdds(parsed: seq<Line>, traces: set<int>, start: nat, end: nat, maxBlocks: int,
                                     maxLines: int)
    requires start < end <= |parsed| && StartsBlock(parsed, start)
    requires forall k :: start <= k < end ==> parsed[k].isStackTrace
    requires BlocksBefore(parsed, start) < maxBlocks && TracesBelow(parsed, traces, start, maxBlocks, maxLines)
    ensures TracesBelow(parsed, traces + Span(start, Truncated(start, end, maxLines)), end, maxBlocks, maxLines)
    ensures BlocksBefore(parsed, end) == BlocksBefore(parsed, start) + 1
  {
    forall j | start <= j < end ensures KeptTrace(parsed, j, maxBlocks, maxLines) <==> j - start < maxLines {
      SameBlock(parsed, start, j);
    }
    SameBlock(parsed, start, end - 1);
  }

  lemma {:induction false} NoMoreTraces(parsed: seq<Line>, traces: set<int>, i: nat, maxBlocks: int, maxLines: int)
    requires i <= |parsed| && TracesBelow(parsed, traces, i, maxBlocks, maxLines)
    requires i == |parsed| || (BlocksBefore(parsed, i) >= maxBlocks && StartsBlock(parsed, i))
    ensures TracesBelow(parsed, traces, |parsed|, maxBlocks, maxLines)
  {
    if i < |parsed| {
      forall j | i <= j < |parsed| ensures !KeptTrace(parsed, j, maxBlocks, maxLines) {
        if parsed[j].isStackTrace {
          StartsAfter(parsed, i, j);
          BlocksGrow(parsed, i, BlockStart(parsed, j));
        }
      }
    }
  }

  lemma {:induction false} StartsAfter(parsed: seq<Line>, i: nat, j: nat)
    requires i <= j < |parsed| && StartsBlock(parsed, i) && parsed[j].isStackTrace
    ensures BlockStart(parsed, j) >= i
  {
  }

  method AddSpan(base: set<int>, start: int, limit: int) returns (out: set<int>)
    ensures out == base + Span(start, limit)
  {
    out := base;
    var j := start;
    while j < limit
      invariant out + Span(j, limit) == base + Span(start, limit)
    {
      out := out + {j};
      j := j + 1;
    }
  }

  /** The first lines of the first blocks of trace lines. */
  method SelectStackTraces(parsed: seq<Line>, maxBlocks: int, maxLines: int) returns (traces: set<int>)
    ensures TracesBelow(parsed, traces, |parsed|, maxBlocks, maxLines)
  {
    traces := {};
    var blocks := 0;
    var i := 0;
    while i < |parsed|
      invariant 0 <= i <= |parsed| && blocks == BlocksBefore(parsed, i)
      invariant i > 0 && i < |parsed| && parsed[i - 1].isStackTrace ==> !parsed[i].isStackTrace
      invariant TracesBelow(parsed, traces, i, maxBlocks, maxLines)
      decreases |parsed| - i
    {
      if !parsed[i].isStackTrace {
        i := i + 1;
        continue;
      }
      if blocks >= maxBlocks {
        break;
      }
      var start := i;
      while i < |parsed| && parsed[i].isStackTrace
        invariant start <= i <= |parsed| && forall k :: start <= k < i ==> parsed[k].isStackTrace
      {
        i := i + 1;
      }
      BlockAdds(parsed, traces, start, i, maxBlocks, maxLines);
      traces := AddSpan(traces, start, Truncated(start, i, maxLines));
      blocks := blocks + 1;
    }
    NoMoreTraces(parsed, traces, i, maxBlocks, maxLines);
  }

  // ---- the whole selection ----

  /** The lines of one level, ascending. */
  function OfLevel(parsed: seq<Line>, level: Level, n: nat): (r: seq<int>)
    requires n <= |parsed|
    ensures Indices(r, n) && forall i :: i in r <==> 0 <= i < n && parsed[i].level == level
  {
    if n == 0 then []
    else if parsed[n - 1].level == level then OfLevel(parsed, level, n - 1) + [n - 1]
    else OfLevel(parsed, level, n - 1)
  }

  ghost predicate NearSome(chosen: set<int>, k: nat, j: int) { exists i :: i in chosen && i - k <= j <= i + k }

  /** Each chosen line with k lines of context to either side. */
  ghost function Windows(chosen: set<int>, k: nat, n: nat): set<int> { set j | 0 <= j < n && NearSome(chosen, k, j) }

  function Depth(contextLines: int): nat { if contextLines < 0 then 0 else contextLines }

  /** Adds i and its context, what is in bounds. */
  method AddWithContext(base: set<int>, i: int, contextLines: int, n: nat) returns (out: set<int>)
    ensures forall j :: j in out <==>
            j in base || (0 <= j < n && i - Depth(contextLines) <= j <= i + Depth(contextLines))
  {
    out := base;
    if 0 <= i < n {
      out := out + {i};
    }
    for d := 1 to Depth(contextLines) + 1
      invariant forall j :: j in out <==> j in base || (0 <= j < n && i - (d - 1) <= j <= i + (d - 1))
    {
      if 0 <= i - d < n {
        out := out + {i - d};
      }
      if 0 <= i + d < n {
        out := out + {i + d};
      }
    }
  }

  /** Iterates the chosen lines in whatever order the map gives them. */
  method AddWindows(base: set<int>, chosen: set<int>, contextLines: int, n: nat) returns (out: set<int>)
    ensures out == base + Windows(chosen, Depth(contextLines), n)
  {
    out := base;
    var rest := chosen;
    while rest != {}
      invariant rest <= chosen && out == base + Windows(chosen - rest, Depth(contextLines), n)
      decreases |rest|
    {
      EmptyOrNot(rest);
      var i :| i in rest;
      out := AddWithContext(out, i, contextLines, n);
      OneMoreWindow(chosen - rest, i, Depth(contextLines), n);
      assert chosen - (rest - {i}) == (chosen - rest) + {i};
      rest := rest - {i};
    }
    assert chosen - rest == chosen;
  }

  lemma {:induction false} OneMoreWindow(chosen: set<int>, i: int, k: nat, n: nat)
    ensures forall j :: j in Windows(chosen + {i}, k, n) <==>
            j in Windows(chosen, k, n) || (0 <= j < n && i - k <= j <= i + k)
  {
    forall j ensures NearSome(chosen + {i}, k, j) <==> NearSome(chosen, k, j) || i - k <= j <= i + k {
      if NearSome(chosen, k, j) {
        var x :| x in chosen && x - k <= j <= x + k;
        assert x in chosen + {i};
      }
      if i - k <= j <= i + k {
        assert i in chosen + {i};
      }
    }
  }

  function DedupKeys(parsed: seq<Line>): (r: seq<string>)
    ensures |r| == |parsed| && forall i :: 0 <= i < |r| ==> r[i] == parsed[i].dedupKey
  {
    seq(|parsed|, i requires 0 <= i < |parsed| => parsed[i].dedupKey)
  }

  lemma {:induction false} OfLevelInBounds(parsed: seq<Line>, level: Level)
    ensures AllInBounds(OfLevel(parsed, level, |parsed|), DedupKeys(parsed))
  {
  }

  /** The first warnings up to the limit, under dedup the first of each key. */
  ghost function Warnings(cfg: Config, parsed: seq<Line>): set<int> {
    var order := OfLevel(parsed, LevelWarn, |parsed|);
    OfLevelInBounds(parsed, LevelWarn);
    if cfg.dedupeWarnings then Greedy(order, DedupKeys(parsed), {}, {}, Depth(cfg.maxWarnings))
    else TopUp({}, order, Depth(cfg.maxWarnings))
  }

  method SelectWarnings(cfg: Config, parsed: seq<Line>) returns (out: set<int>)
    ensures out == Warnings(cfg, parsed)
  {
    out := {};
    var seen: set<string> := {};
    var kept: nat := 0;
    var warnIdx := OfLevel(parsed, LevelWarn, |parsed|);
    var limit := Depth(cfg.maxWarnings);
    OfLevelInBounds(parsed, LevelWarn);
    if !cfg.dedupeWarnings {
      var left;
      out, left := AddUnder({}, warnIdx, limit);
      return;
    }
    ghost var keys := DedupKeys(parsed);
    assert warnIdx[0..] == warnIdx;
    for a := 0 to |warnIdx|
      invariant kept <= limit && AllInBounds(warnIdx[a..], keys)
      invariant Greedy(warnIdx[a..], keys, seen, out, limit - kept) == Greedy(warnIdx, keys, {}, {}, limit)
    {
      if kept >= limit {
        break;
      }
      GreedyTakes(warnIdx[a..], keys, seen, out, limit - kept);
      assert warnIdx[a..][1..] == warnIdx[a + 1..];
      var i := warnIdx[a];
      var k := parsed[i].dedupKey;
      if k in seen {
        continue;
      }
      seen := seen + {k};
      out := out + {i};
      kept := kept + 1;
    }
  }

  /** Under dedup, min(maxWarnings, distinct keys) warnings are kept, no two with the
      same key. */
  lemma {:induction false} WarningsAreExact(cfg: Config, parsed: seq<Line>)
    requires cfg.dedupeWarnings
    ensures AllInBounds(OfLevel(parsed, LevelWarn, |parsed|), DedupKeys(parsed))
    ensures var out, order := Warnings(cfg, parsed), OfLevel(parsed, LevelWarn, |parsed|);
            && |out| == Min(Depth(cfg.maxWarnings), |KeysIn(order, DedupKeys(parsed))|)
            && (forall x :: x in out ==> 0 <= x < |parsed| && parsed[x].level == LevelWarn)
            && (forall x, y :: x in out && y in out && x != y ==> parsed[x].dedupKey != parsed[y].dedupKey)
  {
    var order, keys := OfLevel(parsed, LevelWarn, |parsed|), DedupKeys(parsed);
    OfLevelInBounds(parsed, LevelWarn);
    GreedyIsExact(order, keys, {}, {}, Depth(cfg.maxWarnings));
    var out := Warnings(cfg, parsed);
    assert out - {} == out && KeysIn(order, keys) - {} == KeysIn(order, keys);
  }

  ghost function Traces(cfg: Config, parsed: seq<Line>): set<int> {
    set j | 0 <= j < |parsed| && KeptTrace(parsed, j, cfg.maxStackTraces, cfg.stackTraceMaxLines)
  }

  ghost function Summaries(cfg: Config, parsed: seq<Line>): set<int> {
    if cfg.keepSummaryLines then set j | 0 <= j < |parsed| && parsed[j].isSummary else {}
  }

  /** Everything gathered before the cap. */
  ghost function KeepSet(cfg: Config, parsed: seq<Line>): set<int> {
    var n, k := |parsed|, Depth(cfg.errorContextLines);
    var errors := PickSet(parsed, OfLevel(parsed, LevelError, n), cfg.maxErrors, cfg.keepFirstError, cfg.keepLastError);
    var fails := PickSet(parsed, OfLevel(parsed, LevelFail, n), cfg.maxErrors, cfg.keepFirstError, cfg.keepLastError);
    Windows(errors, k, n) + Windows(fails, k, n) + Warnings(cfg, parsed) + Traces(cfg, parsed) + Summaries(cfg, parsed)
  }

  lemma {:induction false} WarningsWithin(cfg: Config, parsed: seq<Line>)
    ensures Within(Warnings(cfg, parsed), |parsed|)
  {
    var order := OfLevel(parsed, LevelWarn, |parsed|);
    if cfg.dedupeWarnings {
      WarningsAreExact(cfg, parsed);
    } else {
      TopUpWithin({}, order, Depth(cfg.maxWarnings));
    }
  }

  lemma {:induction false} KeepSetWithin(cfg: Config, parsed: seq<Line>)
    ensures Within(KeepSet(cfg, parsed), |parsed|)
  {
    var n, k := |parsed|, Depth(cfg.errorContextLines);
    var errors := PickSet(parsed, OfLevel(parsed, LevelError, n), cfg.maxErrors, cfg.keepFirstError, cfg.keepLastError);
    var fails := PickSet(parsed, OfLevel(parsed, LevelFail, n), cfg.maxErrors, cfg.keepFirstError, cfg.keepLastError);
    WarningsWithin(cfg, parsed);
    UnionWithin(Windows(errors, k, n), Windows(fails, k, n), Warnings(cfg, parsed), Traces(cfg, parsed),
                Summaries(cfg, parsed), n);
  }

  lemma {:induction false} UnionWithin(a: set<int>, b: set<int>, c: set<int>, d: set<int>, e: set<int>, n: nat)
    requires Within(a, n) && Within(b, n) && Within(c, n) && Within(d, n) && Within(e, n)
    ensures Within(a + b + c + d + e, n)
  {
  }

  /** Within the cap, everything; over it, the cap best. */
  ghost function Capped(parsed: seq<Line>, keep: set<int>, cap: int): set<int>
    requires Within(keep, |parsed|)
  {
    if cap > 0 && |keep| > cap then
      RankedIsAll(parsed, keep);
      SetOf(Ranked(parsed, keep)[..cap])
    else keep
  }

  method SummaryLines(cfg: Config, parsed: seq<Line>) returns (out: set<int>)
    ensures out == Summaries(cfg, parsed)
  {
    out := {};
    if cfg.keepSummaryLines {
      for i := 0 to |parsed|
        invariant out == set j | 0 <= j < i && parsed[j].isSummary
      {
        if parsed[i].isSummary {
          out := out + {i};
        }
      }
    }
  }

  method Gather(cfg: Config, parsed: seq<Line>) returns (keep: set<int>)
    ensures keep == KeepSet(cfg, parsed)
  {
    var n := |parsed|;
    var errors := PickCategory(parsed, OfLevel(parsed, LevelError, n), cfg.maxErrors, cfg.keepFirstError,
                               cfg.keepLastError);
    keep := AddWindows({}, errors, cfg.errorContextLines, n);
    var fails := PickCategory(parsed, OfLevel(parsed, LevelFail, n), cfg.maxErrors, cfg.keepFirstError,
                              cfg.keepLastError);
    keep := AddWindows(keep, fails, cfg.errorContextLines, n);
    var warns := SelectWarnings(cfg, parsed);
    var traces := SelectStackTraces(parsed, cfg.maxStackTraces, cfg.stackTraceMaxLines);
    assert traces == Traces(cfg, parsed);
    var summaries := SummaryLines(cfg, parsed);
    keep := keep + warns + traces + summaries;
  }

  /** The result is a function of the parsed lines, whatever order the maps are
      iterated in: the ascending listing of the gathered set, or of its cap best. */
  method SelectIndices(cfg: Config, parsed: seq<Line>, cap: int) returns (selected: seq<int>)
    ensures Within(KeepSet(cfg, parsed), |parsed|)
    ensures selected == Sorted(Capped(parsed, KeepSet(cfg, parsed), cap))
  {
    KeepSetWithin(cfg, parsed);
    var keep := Gather(cfg, parsed);
    if cap > 0 && |keep| > cap {
      var ranked := RankSet(parsed, keep);
      RankedIsAll(parsed, keep);
      keep := set i | i in ranked[..cap];
    }
    selected := SortedIntSet(keep);
  }

  /** Over a positive cap exactly cap lines remain, each better than every one cut. */
  lemma {:induction false} CappedIsBest(parsed: seq<Line>, keep: set<int>, cap: int)
    requires Within(keep, |parsed|) && cap > 0 && |keep| > cap
    ensures var out := Capped(parsed, keep, cap);
            && out <= keep && |out| == cap
            && forall a, b :: a in out && b in keep - out ==> Better(parsed, a, b)
  {
    var ranked, out := Ranked(parsed, keep), Capped(parsed, keep, cap);
    RankedIsAll(parsed, keep);
    var kept := ranked[..cap];
    SameElements(kept, out);
    assert Ranks(parsed, kept, out);
    RankedCount(parsed, kept, out);
    forall t | 0 <= t < cap ensures ranked[t] in out {
      assert kept[t] == ranked[t] && kept[t] in kept;
    }
    forall a, b | a in out && b in keep - out ensures Better(parsed, a, b) {
      var i :| 0 <= i < |kept| && kept[i] == a;
      var j :| 0 <= j < |ranked| && ranked[j] == b;
      assert ranked[i] == a;
    }
  }
}
