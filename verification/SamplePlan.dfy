/** Which rows a plan takes, in what order of preference:
    orchestration.go and planning.go of internal/smartcrusher. */
module SamplePlan {

  import opened Common
  import opened IntSets
  import opened Orchestration

  // ---- over budget ----

  lemma {:induction false} PrefixAdds(base: set<int>, x: int, rest: seq<int>, k: nat)
    requires k <= |rest|
    ensures base + SetOf(([x] + rest)[..k + 1]) == (base + {x}) + SetOf(rest[..k])
  {
    assert ([x] + rest)[..k + 1] == [x] + rest[..k];
    forall y ensures y in SetOf([x] + rest[..k]) <==> y == x || y in SetOf(rest[..k]) {
    }
  }

  lemma {:induction false} TopUpNext(base: set<int>, x: int, rest: seq<int>, budget: nat)
    requires budget > 0
    ensures TopUp(base, [x] + rest, budget)
         == if x in base then TopUp(base, rest, budget) else TopUp(base + {x}, rest, budget - 1)
    ensures x in base ==> base + {x} == base
    ensures x !in base ==> |base + {x}| == |base| + 1
  {
    assert ([x] + rest)[1..] == rest;
  }

  /** The first k candidates are the ones added. */
  ghost predicate TakesFirst(base: set<int>, cands: seq<int>, budget: nat, k: nat) {
    && k <= |cands| && TopUp(base, cands, budget) == base + SetOf(cands[..k])
    && (k < |cands| ==> |TopUp(base, cands, budget)| == |base| + budget)
  }

  lemma {:induction false} TakesOneMore(base: set<int>, x: int, rest: seq<int>, budget: nat, k: nat)
    requires budget > 0
    requires TakesFirst(base + {x}, rest, if x in base then budget else budget - 1, k)
    ensures TakesFirst(base, [x] + rest, budget, k + 1)
  {
    TopUpNext(base, x, rest, budget);
    PrefixAdds(base, x, rest, k);
  }

  /** Topping up adds the first so many candidates: all, or as many as use the budget up. */
  lemma {:induction false} TopUpIsPrefix(base: set<int>, cands: seq<int>, budget: nat) returns (k: nat)
    ensures TakesFirst(base, cands, budget, k)
    decreases |cands|
  {
    if cands == [] || budget == 0 {
      k := 0;
      assert SetOf(cands[..0]) == {};
    } else {
      var x, rest := cands[0], cands[1..];
      k := TopUpIsPrefix(base + {x}, rest, if x in base then budget else budget - 1);
      TakesOneMore(base, x, rest, budget, k);
      assert cands == [x] + rest;
      k := k + 1;
    }
  }

  /** One of the first three rows or the last two. */
  predicate IsAnchor(n: nat, r: int) { 0 <= r < n && (r < 3 || r >= n - 2) }

  lemma {:induction false} RangeAt(a: nat, b: nat)
    ensures |Range(a, b)| == if a <= b then b - a else 0
    ensures forall k :: 0 <= k < |Range(a, b)| ==> Range(a, b)[k] == a + k
    decreases b - a
  {
    if a < b {
      RangeAt(a + 1, b);
    }
  }

  /** The anchors are listed so that a lower one comes first. */
  lemma {:induction false} AnchorsAscend(n: nat, q: nat, r: int) returns (p: nat)
    requires q < |AnchorRows(n)| && IsAnchor(n, r) && r < AnchorRows(n)[q]
    ensures p < q && AnchorRows(n)[p] == r
  {
    RangeAt(0, Min(FIRST_ANCHOR_COUNT, n));
    RangeAt(SatSub(n, LAST_ANCHOR_COUNT), n);
    p := if r < 3 then r else Min(3, n) + (r - (n - 2));
  }

  lemma {:induction false} AnchorsAre(n: nat, r: int)
    ensures r in AnchorRows(n) <==> IsAnchor(n, r)
  {
  }

  /** All anchors that are not critical are in, or there is no budget left. */
  lemma {:induction false} AnchoredFirst(critical: set<int>, n: nat, effectiveMax: int, t: int, r: int)
    requires IsAnchor(n, t) && IsAnchor(n, r) && r < t && t !in critical && t in Anchored(critical, n, effectiveMax)
    ensures r in Anchored(critical, n, effectiveMax)
  {
    var rows := AnchorRows(n);
    var k := TopUpIsPrefix(critical, rows, SatSub(effectiveMax, |critical|));
    assert t in SetOf(rows[..k]);
    var q :| 0 <= q < k && rows[..k][q] == t;
    var p := AnchorsAscend(n, q, r);
    assert rows[..k][p] == r;
  }

  /** Whatever is left for the others was left by all anchors. */
  lemma {:induction false} AllAnchoredFirst(critical: set<int>, n: nat, effectiveMax: int, r: int)
    requires LeftOver(critical, n, effectiveMax) > 0 && IsAnchor(n, r)
    ensures r in Anchored(critical, n, effectiveMax)
  {
    var rows := AnchorRows(n);
    var k := TopUpIsPrefix(critical, rows, SatSub(effectiveMax, |critical|));
    AnchorsAre(n, r);
    assert rows[..|rows|] == rows;
  }

  lemma {:induction false} OnlyAnchorsAdded(critical: set<int>, n: nat, effectiveMax: int, x: int)
    requires x in Anchored(critical, n, effectiveMax)
    ensures x in critical || IsAnchor(n, x)
  {
    TopUpWithin(critical, AnchorRows(n), SatSub(effectiveMax, |critical|));
    AnchorsAre(n, x);
  }

  lemma {:induction false} NoneLeftNoneAdded(anchored: set<int>, current: set<int>, left: nat, x: int)
    requires x in WithOthers(anchored, current, left) && x !in anchored
    ensures left > 0 && x in current
  {
    TopUpWithin(anchored, Sorted(current - anchored), left);
    SetOfSorted(current - anchored);
  }

  /** Over budget, what is kept besides the criticals is taken in order: the anchors,
      lower rows first, and once all of them are in the other rows asked for, lowest
      first. With the exact size, this leaves no choice. */
  lemma {:induction false} OverBudgetOrder(current: set<int>, critical: set<int>, n: nat, effectiveMax: int, x: int)
    requires |current| > effectiveMax && x in Resolved(current, critical, n, effectiveMax) && x !in critical
    ensures var out := Resolved(current, critical, n, effectiveMax);
            if IsAnchor(n, x) then forall r :: IsAnchor(n, r) && r < x ==> r in out
            else
              && x in current && (forall r :: IsAnchor(n, r) ==> r in out)
              && forall y :: y in current && y < x ==> y in out
  {
    var anchored, left := Anchored(critical, n, effectiveMax), LeftOver(critical, n, effectiveMax);
    var out := Resolved(current, critical, n, effectiveMax);
    OthersWithin(current, anchored, left);
    if x in anchored {
      OnlyAnchorsAdded(critical, n, effectiveMax, x);
      forall r | IsAnchor(n, r) && r < x ensures r in out {
        AnchoredFirst(critical, n, effectiveMax, x, r);
      }
    } else {
      NoneLeftNoneAdded(anchored, current, left, x);
      forall r | IsAnchor(n, r) ensures r in out {
        AllAnchoredFirst(critical, n, effectiveMax, r);
      }
      forall y | y in current && y < x ensures y in out {
        if y !in out {
          LowerTaken(anchored, current, left, x, y);
        }
      }
    }
  }

  lemma {:induction false} LowerTaken(anchored: set<int>, current: set<int>, left: nat, x: int, y: int)
    requires x in WithOthers(anchored, current, left) && x !in anchored
    requires y in current && y !in WithOthers(anchored, current, left)
    ensures x < y
  {
    var rest := current - anchored;
    TopUpWithin(anchored, Sorted(rest), left);
    TopUpTakesLowest(anchored, Sorted(rest), left, x, y);
  }

  // ---- filling ----

  /** The contents of rows outside base that no row of base has. */
  ghost function NewContents(base: set<int>, keys: seq<string>): set<string> {
    set i | 0 <= i < |keys| && i !in base && !HasContent(base, keys, keys[i]) :: keys[i]
  }

  ghost predicate HasContent(rows: set<int>, keys: seq<string>, content: string) {
    exists r :: r in rows && 0 <= r < |keys| && keys[r] == content
  }

  lemma {:induction false} ContentsAre(base: set<int>, keys: seq<string>)
    ensures NewContents(base, keys) == KeysAt(Outside(base, |keys|), keys) - KeysAt(base, keys)
  {
    forall content ensures HasContent(base, keys, content) <==> content in KeysAt(base, keys) {
    }
    forall content
      ensures content in NewContents(base, keys)
         <==> content in KeysAt(Outside(base, |keys|), keys) && content !in KeysAt(base, keys)
    {
      if content in KeysAt(Outside(base, |keys|), keys) {
        var i :| i in Outside(base, |keys|) && 0 <= i < |keys| && keys[i] == content;
      }
    }
  }

  /** A plan below its budget keeps everything asked for, one row for each content when
      duplicates go, and fills up with new contents as far as they or the budget go. */
  lemma {:induction false} FillsUp(dedup: bool, keep: set<int>, keys: seq<string>, flags: Flags, effectiveMax: int)
    requires var base := if dedup then Deduped(keep, keys) else keep; |base| <= effectiveMax
    ensures var base := if dedup then Deduped(keep, keys) else keep;
            var out := Prioritized(dedup, keep, keys, flags, effectiveMax);
            && base <= out
            && (if |base| < |keys| then |out| == |base| + Min(effectiveMax - |base|, |NewContents(base, keys)|)
                else out == base)
  {
    var base := if dedup then Deduped(keep, keys) else keep;
    var current := Current(dedup, keep, keys, effectiveMax);
    FillIsExact(base, keys, effectiveMax);
    ContentsAre(base, keys);
    BudgetIsExact(current, Criticals(flags, |keys|), |keys|, effectiveMax);
  }

  // ---- the order of filling ----

  /** The stride: candidate positions are taken step apart, then again from the next
      offset on. */
  predicate Earlier(a: nat, b: nat, step: nat)
    requires step > 0
  {
    a % step < b % step || (a % step == b % step && a < b)
  }

  lemma {:induction false} LaneAscends(m: nat, step: nat, i: nat, a: nat, b: nat)
    requires step > 0 && a < b < |Lane(m, step, i)|
    ensures Lane(m, step, i)[a] < Lane(m, step, i)[b]
    decreases m - i
  {
    if i < m {
      var rest := Lane(m, step, i + step);
      if a > 0 {
        LaneAscends(m, step, i + step, a - 1, b - 1);
      } else {
        LaneIs(m, step, i + step);
        assert rest[b - 1] in rest;
      }
    }
  }

  ghost predicate AllAt(positions: seq<nat>, step: nat, s: nat)
    requires step > 0
  {
    forall k :: 0 <= k < |positions| ==> positions[k] % step == s
  }

  ghost predicate AllAbove(positions: seq<nat>, step: nat, s: nat)
    requires step > 0
  {
    forall k :: 0 <= k < |positions| ==> positions[k] % step > s
  }

  /** Residues along the lanes: the first lane's are s, the later ones' higher. */
  lemma {:induction false} LaneResidues(m: nat, step: nat, s: nat)
    requires s < step
    ensures AllAt(Lane(m, step, s), step, s) && AllAbove(Lanes(m, step, s + 1), step, s)
  {
    var lane, rest := Lane(m, step, s), Lanes(m, step, s + 1);
    LaneIs(m, step, s);
    LanesAre(m, step, s + 1);
    ResidueUnique(s, step, 0, s);
    forall k | 0 <= k < |lane| ensures lane[k] % step == s {
      assert lane[k] in lane;
    }
    forall k | 0 <= k < |rest| ensures rest[k] % step > s {
      assert rest[k] in rest;
    }
  }

  lemma {:induction false} LanesAscend(m: nat, step: nat, s: nat, a: nat, b: nat)
    requires step > 0 && s <= step && a < b < |Lanes(m, step, s)|
    ensures Earlier(Lanes(m, step, s)[a], Lanes(m, step, s)[b], step)
    decreases step - s
  {
    if s < step {
      var lane, rest := Lane(m, step, s), Lanes(m, step, s + 1);
      LaneResidues(m, step, s);
      if b < |lane| {
        LaneAscends(m, step, s, a, b);
        assert lane[a] % step == s && lane[b] % step == s;
      } else if a >= |lane| {
        LanesAscend(m, step, s + 1, a - |lane|, b - |lane|);
      } else {
        assert lane[a] % step == s && rest[b - |lane|] % step > s;
      }
    }
  }

  /** A row is passed over only for its content, or when the budget is spent. */
  lemma {:induction false} GreedyInOrder(order: seq<int>, keys: seq<string>, seen: set<string>, result: set<int>,
                                         budget: nat, p: nat, q: nat)
    requires AllInBounds(order, keys) && Unique(order) && p < q < |order|
    requires forall k :: 0 <= k < |order| ==> order[k] !in result
    requires order[q] in Greedy(order, keys, seen, result, budget)
    ensures var out := Greedy(order, keys, seen, result, budget);
            order[p] in out || keys[order[p]] in seen
            || exists h :: 0 <= h < p && order[h] in out && keys[order[h]] == keys[order[p]]
  {
    if order != [] && budget > 0 {
      var x, rest := order[0], order[1..];
      var out := Greedy(order, keys, seen, result, budget);
      assert order[q] == rest[q - 1] && (p > 0 ==> order[p] == rest[p - 1]);
      if keys[x] in seen {
        if p > 0 {
          GreedyInOrder(rest, keys, seen, result, budget, p - 1, q - 1);
          assert forall h :: 0 <= h < p - 1 ==> rest[h] == order[h + 1];
        }
      } else {
        GreedyKeeps(rest, keys, seen + {keys[x]}, result + {x}, budget - 1);
        assert x in out;
        if p > 0 {
          GreedyInOrder(rest, keys, seen + {keys[x]}, result + {x}, budget - 1, p - 1, q - 1);
          assert forall h :: 0 <= h < p - 1 ==> rest[h] == order[h + 1];
          assert order[0] == x;
        }
      }
    }
  }

  lemma {:induction false} GreedyKeeps(order: seq<int>, keys: seq<string>, seen: set<string>, result: set<int>,
                                       budget: nat)
    requires AllInBounds(order, keys)
    ensures result <= Greedy(order, keys, seen, result, budget)
  {
    if order != [] && budget > 0 {
      if keys[order[0]] in seen {
        GreedyKeeps(order[1..], keys, seen, result, budget);
      } else {
        GreedyKeeps(order[1..], keys, seen + {keys[order[0]]}, result + {order[0]}, budget - 1);
      }
    }
  }

  /** How far apart filling takes m candidates when `free` slots are left. */
  function StepFor(m: nat, free: nat): nat { if m < free + 1 then 1 else m / (free + 1) }

  lemma {:induction false} StrideIs(m: nat, free: nat)
    ensures Stride(m, free) == StepFor(m, free) > 0
  {
    if m >= free + 1 {
      OverIsPositive(m, free + 1);
    } else {
      assert m / (free + 1) == 0;
    }
  }

  lemma {:induction false} OverIsPositive(m: nat, d: nat)
    requires d > 0 && m >= d
    ensures m / d >= 1
  {
    assert m == d * (m / d) + m % d;
  }

  /** Where position c stands in the order of filling. */
  lemma {:induction false} VisitedAt(cands: seq<int>, step: nat, c: nat) returns (k: nat)
    requires step > 0 && c < |cands|
    ensures k < |VisitOrder(cands, step)| && VisitOrder(cands, step)[k] == cands[c]
    ensures k < |Lanes(|cands|, step, 0)| && Lanes(|cands|, step, 0)[k] == c
  {
    VisitsEachOnce(|cands|, step);
    LanesInRange(|cands|, step, 0);
    assert c in Lanes(|cands|, step, 0);
    k :| 0 <= k < |Lanes(|cands|, step, 0)| && Lanes(|cands|, step, 0)[k] == c;
  }

  lemma {:induction false} EarlierIsBefore(m: nat, step: nat, i: nat, j: nat)
    requires step > 0 && i < |Lanes(m, step, 0)| && j < |Lanes(m, step, 0)|
    requires Earlier(Lanes(m, step, 0)[i], Lanes(m, step, 0)[j], step)
    ensures i < j
  {
    if j < i {
      LanesAscend(m, step, 0, j, i);
    }
  }

  /** Filling takes the candidates in stride: one that comes earlier than a row taken is
      itself taken, or a row with its content was there or was taken still earlier. */
  lemma {:induction false} FillsInStride(keep: set<int>, keys: seq<string>, effectiveMax: int, a: nat, b: nat)
    requires var cands := Candidates(keep, |keys|);
             var step := StepFor(|cands|, SatSub(effectiveMax, |keep|));
             step > 0 && a < |cands| && b < |cands| && Earlier(a, b, step)
             && cands[b] in Filled(keep, keys, effectiveMax)
    ensures var cands, out := Candidates(keep, |keys|), Filled(keep, keys, effectiveMax);
            var step := StepFor(|cands|, SatSub(effectiveMax, |keep|));
            cands[a] in out || HasContent(keep, keys, keys[cands[a]])
            || exists c: nat :: c < |cands| && Earlier(c, a, step) && cands[c] in out
                 && keys[cands[c]] == keys[cands[a]]
  {
    var cands, free := Candidates(keep, |keys|), SatSub(effectiveMax, |keep|);
    StrideIs(|cands|, free);
    var step := StepFor(|cands|, free);
    var order, lanes := VisitOrder(cands, step), Lanes(|cands|, step, 0);
    VisitOrderIs(cands, step);
    VisitOrderInBounds(keep, keys, step);
    var p := VisitedAt(cands, step, a);
    var q := VisitedAt(cands, step, b);
    EarlierIsBefore(|cands|, step, p, q);
    forall k | 0 <= k < |order| ensures order[k] !in keep {
      assert order[k] in order;
    }
    GreedyInOrder(order, keys, KeysAt(keep, keys), keep, free, p, q);
    var out := Filled(keep, keys, effectiveMax);
    if cands[a] !in out && !HasContent(keep, keys, keys[cands[a]]) {
      var h :| 0 <= h < p && order[h] in out && keys[order[h]] == keys[order[p]];
      LanesInRange(|cands|, step, 0);
      LanesAscend(|cands|, step, 0, h, p);
      assert cands[lanes[h]] == order[h];
    }
  }

  // ---- the signals ----

  lemma {:induction false} MustKeepIff(lists: seq<seq<int>>, n: nat, i: int)
    ensures i in MustKeep(lists, n) <==> 0 <= i < n && exists k :: 0 <= k < |lists| && i in lists[k]
  {
    if lists != [] {
      MustKeepIff(lists[1..], n, i);
      assert forall k :: 0 <= k < |lists[1..]| ==> lists[1..][k] == lists[k + 1];
      if k :| 0 <= k < |lists| && i in lists[k] {
        assert k > 0 ==> i in lists[1..][k - 1];
      }
    }
  }

  lemma {:induction false} WindowsIff(changePoints: seq<int>, n: nat, i: int)
    ensures i in Windows(changePoints, n)
       <==> 0 <= i < n && exists k :: 0 <= k < |changePoints| && changePoints[k] - 1 <= i <= changePoints[k] + 1
  {
    if changePoints != [] {
      var rest := changePoints[1..];
      WindowsIff(rest, n, i);
      assert forall k :: 0 <= k < |rest| ==> rest[k] == changePoints[k + 1];
      if k :| 0 <= k < |changePoints| && changePoints[k] - 1 <= i <= changePoints[k] + 1 {
        assert k > 0 ==> rest[k - 1] == changePoints[k];
      }
    }
  }

  /** A row is asked for by an anchor, an anomaly, the query, a constraint, or a change
      point no more than one row away. */
  lemma {:induction false} SignalsAre(keys: seq<string>, anchors: seq<int>, mustKeep: seq<seq<int>>,
                                      anomalies: set<int>, changePoints: seq<int>, preserveChangePoints: bool,
                                      query: set<int>, i: int)
    ensures i in Signals(keys, anchors, mustKeep, anomalies, changePoints, preserveChangePoints, query)
       <==> i in anchors || i in anomalies || i in query
            || (0 <= i < |keys| && exists k :: 0 <= k < |mustKeep| && i in mustKeep[k])
            || (preserveChangePoints && 0 <= i < |keys|
                && exists k :: 0 <= k < |changePoints| && changePoints[k] - 1 <= i <= changePoints[k] + 1)
  {
    MustKeepIff(mustKeep, |keys|, i);
    WindowsIff(changePoints, |keys|, i);
  }
}
