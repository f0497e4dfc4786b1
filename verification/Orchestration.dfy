/** Rows kept under a budget: orchestration.go and planning.go of internal/smartcrusher. */
module Orchestration {

  // Rows are indices; keys[i] is the content hash of row i.

  import opened Common
  import opened IntSets

  ghost predicate InBounds(i: int, keys: seq<string>) { 0 <= i < |keys| }

  /** The contents of the in-bounds rows of a set. */
  ghost function KeysAt(s: set<int>, keys: seq<string>): set<string> {
    set i | i in s && 0 <= i < |keys| :: keys[i]
  }

  // ---- one row per content ----

  /** i is in bounds and the lowest row of keep with its content. */
  ghost predicate FirstOfItsKind(keep: set<int>, keys: seq<string>, i: int) {
    i in keep && 0 <= i < |keys| && forall j :: j in keep && 0 <= j < i ==> keys[j] != keys[i]
  }

  ghost function Deduped(keep: set<int>, keys: seq<string>): set<int> {
    set i | i in keep && FirstOfItsKind(keep, keys, i)
  }

  /** One more row above all those seen. */
  lemma {:induction false} DedupStep(below: set<int>, keys: seq<string>, x: int)
    requires forall j :: j in below ==> j < x
    ensures var inside := 0 <= x < |keys|;
            && KeysAt(below + {x}, keys) == KeysAt(below, keys) + (if inside then {keys[x]} else {})
            && Deduped(below + {x}, keys)
                 == if inside && keys[x] !in KeysAt(below, keys) then Deduped(below, keys) + {x}
                   else Deduped(below, keys)
  {
    var more := below + {x};
    forall i ensures i in Deduped(more, keys) <==>
      i in Deduped(below, keys) || (i == x && 0 <= x < |keys| && keys[x] !in KeysAt(below, keys))
    {
      assert i != x ==> (FirstOfItsKind(more, keys, i) <==> FirstOfItsKind(below, keys, i));
      assert i == x ==> (FirstOfItsKind(more, keys, i) <==> 0 <= x < |keys| && keys[x] !in KeysAt(below, keys));
    }
  }

  /** Keeps idx unless it is out of bounds or its content was seen. */
  method DedupOne(idx: int, keys: seq<string>, seen: set<string>, result: set<int>, ghost below: set<int>)
    returns (seen': set<string>, result': set<int>)
    requires forall j :: j in below ==> j < idx
    requires result == Deduped(below, keys) && seen == KeysAt(below, keys)
    ensures result' == Deduped(below + {idx}, keys) && seen' == KeysAt(below + {idx}, keys)
  {
    seen', result' := seen, result;
    DedupStep(below, keys, idx);
    if idx < 0 || idx >= |keys| {
      return;
    }
    var h := keys[idx];
    if h in seen {
      return;
    }
    seen' := seen + {h};
    result' := result + {idx};
  }

  method DeduplicateIndicesByContent(keep: set<int>, keys: seq<string>) returns (result: set<int>)
    ensures result == Deduped(keep, keys)
  {
    result := {};
    NothingDeduped(keys);
    if |keep| == 0 {
      assert keep == {};
      return;
    }
    var seen: set<string> := {};
    var sorted := SortedIntSet(keep);
    for k := 0 to |sorted|
      invariant result == Deduped(SetOf(sorted[..k]), keys) && seen == KeysAt(SetOf(sorted[..k]), keys)
    {
      SetOfPrefix(sorted, k);
      BelowNext(keep, sorted, k);
      seen, result := DedupOne(sorted[k], keys, seen, result, SetOf(sorted[..k]));
    }
    assert sorted[..|sorted|] == sorted;
    SetOfListed(sorted, keep);
  }

  lemma {:induction false} BelowNext(keep: set<int>, sorted: seq<int>, k: nat)
    requires Lists(sorted, keep) && k < |sorted|
    ensures forall j :: j in SetOf(sorted[..k]) ==> j < sorted[k]
  {
    forall j | j in SetOf(sorted[..k]) ensures j < sorted[k] {
      var a :| 0 <= a < k && sorted[a] == j;
    }
  }

  lemma {:induction false} NothingDeduped(keys: seq<string>)
    ensures Deduped({}, keys) == {} && KeysAt({}, keys) == {}
  {
  }

  /** Every in-bounds row is represented by itself or a lower row with its content. */
  lemma {:induction false} DedupRepresents(keep: set<int>, keys: seq<string>, i: int) returns (r: int)
    requires i in keep && InBounds(i, keys)
    ensures r in Deduped(keep, keys) && 0 <= r <= i && keys[r] == keys[i]
    decreases i
  {
    if FirstOfItsKind(keep, keys, i) {
      r := i;
    } else {
      var j :| j in keep && 0 <= j < i && keys[j] == keys[i];
      r := DedupRepresents(keep, keys, j);
    }
  }

  /** No two rows kept have the same content. */
  lemma {:induction false} DedupIsDistinct(keep: set<int>, keys: seq<string>, a: int, b: int)
    requires a in Deduped(keep, keys) && b in Deduped(keep, keys) && a < b
    ensures keys[a] != keys[b]
  {
    assert FirstOfItsKind(keep, keys, b);
  }

  // ---- the strided order ----

  /** Positions i, i + step, i + 2 step, ... below m. */
  ghost function Lane(m: nat, step: nat, i: nat): seq<nat>
    requires step > 0
    decreases m - i
  {
    if i >= m then [] else [i] + Lane(m, step, i + step)
  }

  /** The lanes from offset s on. */
  ghost function Lanes(m: nat, step: nat, s: nat): seq<nat>
    requires step > 0
    decreases step - s
  {
    if s >= step then [] else Lane(m, step, s) + Lanes(m, step, s + 1)
  }

  lemma {:induction false} Multiples(step: nat, d: int)
    requires step > 0
    ensures d >= 1 ==> step * d >= step
    ensures d <= -1 ==> step * d <= 0 - step
  {
  }

  lemma {:induction false} MultipleSmall(step: nat, d: int, e: int)
    requires step > 0 && step * d == e && 0 - step < e && e < step
    ensures d == 0
  {
    Multiples(step, d);
  }

  lemma {:induction false} ResidueUnique(x: nat, step: nat, q: nat, r: nat)
    requires step > 0 && x == step * q + r && r < step
    ensures x % step == r && x / step == q
  {
    var q', r' := x / step, x % step;
    assert x == step * q' + r';
    assert step * (q - q') == r' - r;
    MultipleSmall(step, q - q', r' - r);
  }

  lemma {:induction false} SameResidue(p: nat, i: nat, step: nat)
    requires step > 0
    ensures (i + step) % step == i % step
    ensures p % step == i % step && i <= p < i + step ==> p == i
  {
    assert i == step * (i / step) + i % step && p == step * (p / step) + p % step;
    ResidueUnique(i + step, step, i / step + 1, i % step);
    if p % step == i % step && i <= p < i + step {
      var d := p / step - i / step;
      assert step * (p / step) - step * (i / step) == step * d;
      MultipleSmall(step, d, p - i);
    }
  }

  /** A lane holds exactly the positions of its residue, each once, ascending. */
  lemma {:induction false} LaneIs(m: nat, step: nat, i: nat)
    requires step > 0
    ensures forall p: nat :: p in Lane(m, step, i) <==> i <= p < m && p % step == i % step
    ensures Unique(Lane(m, step, i))
    decreases m - i
  {
    if i < m {
      LaneIs(m, step, i + step);
      var rest := Lane(m, step, i + step);
      forall p: nat ensures p in Lane(m, step, i) <==> i <= p < m && p % step == i % step {
        SameResidue(p, i, step);
      }
      forall a, b | 0 <= a < b < |Lane(m, step, i)| ensures Lane(m, step, i)[a] != Lane(m, step, i)[b] {
        assert Lane(m, step, i)[b] == rest[b - 1] && rest[b - 1] in rest;
      }
    }
  }

  lemma {:induction false} LanesAre(m: nat, step: nat, s: nat)
    requires step > 0 && s <= step
    ensures forall p: nat :: p in Lanes(m, step, s) <==> p < m && s <= p % step
    ensures Unique(Lanes(m, step, s))
    decreases step - s
  {
    if s < step {
      LaneIs(m, step, s);
      LanesAre(m, step, s + 1);
      var a, b := Lane(m, step, s), Lanes(m, step, s + 1);
      ResidueUnique(s, step, 0, s);
      forall p: nat ensures p in a + b <==> p < m && s <= p % step {
        if p < m && p % step == s {
          assert p >= s;
        }
      }
      forall i, j | 0 <= i < j < |a + b| ensures (a + b)[i] != (a + b)[j] {
        if i < |a| <= j {
          assert (a + b)[i] in a && (a + b)[j] in b;
        }
      }
    }
  }

  /** The double loop visits every candidate position exactly once. */
  lemma {:induction false} VisitsEachOnce(m: nat, step: nat)
    requires step > 0
    ensures Unique(Lanes(m, step, 0)) && forall p: nat :: p in Lanes(m, step, 0) <==> p < m
  {
    LanesAre(m, step, 0);
  }

  // ---- filling ----

  ghost predicate AllInBounds(order: seq<int>, keys: seq<string>) {
    forall k :: 0 <= k < |order| ==> 0 <= order[k] < |keys|
  }

  /** Visits rows in order, adding each whose content is new, until the budget is
      spent. */
  ghost function Greedy(order: seq<int>, keys: seq<string>, seen: set<string>, result: set<int>, budget: nat): set<int>
    requires AllInBounds(order, keys)
  {
    if order == [] || budget == 0 then result
    else if keys[order[0]] in seen then Greedy(order[1..], keys, seen, result, budget)
    else Greedy(order[1..], keys, seen + {keys[order[0]]}, result + {order[0]}, budget - 1)
  }

  /** The rows outside keep, ascending. */
  function Candidates(keep: set<int>, n: nat): (r: seq<int>)
    ensures forall i :: i in r <==> 0 <= i < n && i !in keep
    ensures forall c :: 0 <= c < |r| ==> 0 <= r[c] < n
    ensures Ascending(r)
  {
    if n == 0 then [] else if n - 1 in keep then Candidates(keep, n - 1) else Candidates(keep, n - 1) + [n - 1]
  }

  function Stride(count: nat, remaining: nat): (step: nat)
    ensures step > 0
  {
    if count / (remaining + 1) < 1 then 1 else count / (remaining + 1)
  }

  ghost predicate InRange(positions: seq<nat>, m: nat) { forall k :: 0 <= k < |positions| ==> positions[k] < m }

  /** The candidates at those positions. */
  ghost function At(positions: seq<nat>, cands: seq<int>): (r: seq<int>)
    requires InRange(positions, |cands|)
    ensures |r| == |positions| && forall k :: 0 <= k < |r| ==> r[k] == cands[positions[k]]
  {
    seq(|positions|, k requires 0 <= k < |positions| => cands[positions[k]])
  }

  lemma {:induction false} LanesInRange(m: nat, step: nat, s: nat)
    requires step > 0 && s <= step
    ensures InRange(Lanes(m, step, s), m)
  {
    LanesAre(m, step, s);
    forall k | 0 <= k < |Lanes(m, step, s)| ensures Lanes(m, step, s)[k] < m {
      assert Lanes(m, step, s)[k] in Lanes(m, step, s);
    }
  }

  lemma {:induction false} LaneInRange(m: nat, step: nat, i: nat)
    requires step > 0
    ensures InRange(Lane(m, step, i), m)
  {
    LaneIs(m, step, i);
    forall k | 0 <= k < |Lane(m, step, i)| ensures Lane(m, step, i)[k] < m {
      assert Lane(m, step, i)[k] in Lane(m, step, i);
    }
  }

  /** The candidates in the order the strided double loop visits them. */
  ghost function VisitOrder(cands: seq<int>, step: nat): (r: seq<int>)
    requires step > 0
    ensures |r| == |Lanes(|cands|, step, 0)|
  {
    LanesInRange(|cands|, step, 0);
    At(Lanes(|cands|, step, 0), cands)
  }

  /** The double loop visits every candidate exactly once. */
  lemma {:induction false} VisitOrderIs(cands: seq<int>, step: nat)
    requires step > 0 && Ascending(cands)
    ensures Unique(VisitOrder(cands, step)) && forall x :: x in VisitOrder(cands, step) <==> x in cands
  {
    var positions, order := Lanes(|cands|, step, 0), VisitOrder(cands, step);
    LanesInRange(|cands|, step, 0);
    VisitsEachOnce(|cands|, step);
    forall x ensures x in order <==> x in cands {
      if x in order {
        var k :| 0 <= k < |order| && order[k] == x;
        assert order[k] == cands[positions[k]];
      }
      if x in cands {
        var c :| 0 <= c < |cands| && cands[c] == x;
        assert c in positions;
        var k :| 0 <= k < |positions| && positions[k] == c;
        assert order[k] == x;
      }
    }
    forall a, b | 0 <= a < b < |order| ensures order[a] != order[b] {
      assert positions[a] != positions[b];
      assert order[a] == cands[positions[a]] && order[b] == cands[positions[b]];
    }
  }

  lemma {:induction false} VisitOrderInBounds(keep: set<int>, keys: seq<string>, step: nat)
    requires step > 0
    ensures AllInBounds(VisitOrder(Candidates(keep, |keys|), step), keys)
  {
    var cands := Candidates(keep, |keys|);
    VisitOrderIs(cands, step);
    forall k | 0 <= k < |VisitOrder(cands, step)| ensures 0 <= VisitOrder(cands, step)[k] < |keys| {
      assert VisitOrder(cands, step)[k] in VisitOrder(cands, step);
    }
  }

  ghost function Filled(keep: set<int>, keys: seq<string>, effectiveMax: int): set<int> {
    var cands, remaining := Candidates(keep, |keys|), SatSub(effectiveMax, |keep|);
    VisitOrderInBounds(keep, keys, Stride(|cands|, remaining));
    Greedy(VisitOrder(cands, Stride(|cands|, remaining)), keys, KeysAt(keep, keys), keep, remaining)
  }

  ghost function KeysIn(order: seq<int>, keys: seq<string>): set<string>
    requires AllInBounds(order, keys)
  {
    if order == [] then {} else {keys[order[0]]} + KeysIn(order[1..], keys)
  }

  /** What greedy filling adds: as many rows as there is budget and new content for,
      each with content not seen before. */
  ghost predicate FillsExactly(order: seq<int>, keys: seq<string>, seen: set<string>, result: set<int>, budget: nat,
                               out: set<int>)
    requires AllInBounds(order, keys)
  {
    var added := out - result;
    && result <= out
    && (forall x :: x in added ==> x in order && 0 <= x < |keys| && keys[x] !in seen)
    && (forall x, y :: x in added && y in added && x != y ==> keys[x] != keys[y])
    && |added| == Min(budget, |KeysIn(order, keys) - seen|)
  }

  lemma {:induction false} SkippedIsExact(order: seq<int>, keys: seq<string>, seen: set<string>, result: set<int>,
                                          budget: nat, out: set<int>)
    requires AllInBounds(order, keys) && order != [] && keys[order[0]] in seen
    requires AllInBounds(order[1..], keys) && FillsExactly(order[1..], keys, seen, result, budget, out)
    ensures FillsExactly(order, keys, seen, result, budget, out)
  {
    assert KeysIn(order, keys) - seen == KeysIn(order[1..], keys) - seen;
  }

  lemma {:induction false} OneAdded(out: set<int>, result: set<int>, x: int)
    requires x in out && x !in result
    ensures out - result == {x} + (out - (result + {x})) && |out - result| == 1 + |out - (result + {x})|
  {
  }

  lemma {:induction false} AddedIsExact(order: seq<int>, keys: seq<string>, seen: set<string>, result: set<int>,
                                        budget: nat, out: set<int>)
    requires AllInBounds(order, keys) && order != [] && keys[order[0]] !in seen && order[0] !in result && budget > 0
    requires AllInBounds(order[1..], keys)
    requires FillsExactly(order[1..], keys, seen + {keys[order[0]]}, result + {order[0]}, budget - 1, out)
    ensures FillsExactly(order, keys, seen, result, budget, out)
  {
    OneAdded(out, result, order[0]);
    OneMore(keys[order[0]], KeysIn(order[1..], keys), seen);
  }

  lemma {:induction false} GreedyIsExact(order: seq<int>, keys: seq<string>, seen: set<string>, result: set<int>,
                                         budget: nat)
    requires AllInBounds(order, keys) && forall x :: x in result && 0 <= x < |keys| ==> keys[x] in seen
    ensures FillsExactly(order, keys, seen, result, budget, Greedy(order, keys, seen, result, budget))
  {
    var out := Greedy(order, keys, seen, result, budget);
    if order == [] || budget == 0 {
      assert out - result == {};
      assert order == [] ==> KeysIn(order, keys) - seen == {};
    } else {
      var x, rest := order[0], order[1..];
      if keys[x] in seen {
        GreedyIsExact(rest, keys, seen, result, budget);
        SkippedIsExact(order, keys, seen, result, budget, out);
      } else {
        GreedyIsExact(rest, keys, seen + {keys[x]}, result + {x}, budget - 1);
        AddedIsExact(order, keys, seen, result, budget, out);
      }
    }
  }

  lemma {:induction false} KeysInIs(order: seq<int>, keys: seq<string>, s: set<int>)
    requires AllInBounds(order, keys) && forall x :: x in order <==> x in s
    ensures KeysIn(order, keys) == KeysAt(s, keys)
  {
    forall h ensures h in KeysIn(order, keys) <==> h in KeysAt(s, keys) {
      KeysInHas(order, keys, h);
      if h in KeysAt(s, keys) {
        var i :| i in s && 0 <= i < |keys| && keys[i] == h;
        assert i in order;
      }
    }
  }

  lemma {:induction false} KeysInHas(order: seq<int>, keys: seq<string>, h: string)
    requires AllInBounds(order, keys)
    ensures h in KeysIn(order, keys) <==> exists k :: 0 <= k < |order| && keys[order[k]] == h
  {
    if order != [] {
      KeysInHas(order[1..], keys, h);
      if h in KeysIn(order[1..], keys) {
        var k :| 0 <= k < |order[1..]| && keys[order[1..][k]] == h;
        assert order[k + 1] == order[1..][k];
      }
      if exists k :: 0 <= k < |order| && keys[order[k]] == h {
        var k :| 0 <= k < |order| && keys[order[k]] == h;
        assert k > 0 ==> order[1..][k - 1] == order[k];
      }
    }
  }

  ghost function Outside(keep: set<int>, n: nat): set<int> { set i | 0 <= i < n && i !in keep }

  /** Filling keeps what was there and adds exactly as many rows as there are free
      slots or unrepresented contents, whichever is fewer; no added row repeats a kept
      or an added one's content. */
  lemma {:induction false} FillIsExact(keep: set<int>, keys: seq<string>, effectiveMax: int)
    ensures var out, free := Filled(keep, keys, effectiveMax), SatSub(effectiveMax, |keep|);
            && keep <= out && out - keep <= Outside(keep, |keys|)
            && |out| == |keep| + Min(free, |KeysAt(Outside(keep, |keys|), keys) - KeysAt(keep, keys)|)
            && (forall x :: x in out - keep ==> 0 <= x < |keys| && keys[x] !in KeysAt(keep, keys))
            && (forall x, y :: x in out - keep && y in out - keep && x != y ==> keys[x] != keys[y])
  {
    var cands, remaining := Candidates(keep, |keys|), SatSub(effectiveMax, |keep|);
    var step := Stride(|cands|, remaining);
    var order, out := VisitOrder(cands, step), Filled(keep, keys, effectiveMax);
    VisitOrderIs(cands, step);
    VisitOrderInBounds(keep, keys, step);
    GreedyIsExact(order, keys, KeysAt(keep, keys), keep, remaining);
    KeysInIs(order, keys, Outside(keep, |keys|));
    assert out == keep + (out - keep);
  }

  /** What is left to visit: the rest of lane s from position i, then later lanes. */
  ghost function LeftFrom(cands: seq<int>, step: nat, s: nat, i: nat): seq<int>
    requires step > 0 && s < step
  {
    LaneInRange(|cands|, step, i);
    LanesInRange(|cands|, step, s + 1);
    At(Lane(|cands|, step, i) + Lanes(|cands|, step, s + 1), cands)
  }

  ghost function LeftLanes(cands: seq<int>, step: nat, s: nat): seq<int>
    requires step > 0 && s <= step
  {
    LanesInRange(|cands|, step, s);
    At(Lanes(|cands|, step, s), cands)
  }

  lemma {:induction false} LaneStarts(cands: seq<int>, step: nat, s: nat)
    requires step > 0 && s < step
    ensures LeftLanes(cands, step, s) == LeftFrom(cands, step, s, s)
  {
  }

  lemma {:induction false} LaneEnds(cands: seq<int>, step: nat, s: nat, i: nat)
    requires step > 0 && s < step && i >= |cands|
    ensures LeftFrom(cands, step, s, i) == LeftLanes(cands, step, s + 1)
  {
    assert [] + Lanes(|cands|, step, s + 1) == Lanes(|cands|, step, s + 1);
  }

  lemma {:induction false} LaneMoves(cands: seq<int>, step: nat, s: nat, i: nat)
    requires step > 0 && s < step && i < |cands|
    ensures LeftFrom(cands, step, s, i) == [cands[i]] + LeftFrom(cands, step, s, i + step)
  {
  }

  lemma {:induction false} AtInBounds(positions: seq<nat>, cands: seq<int>, keys: seq<string>)
    requires InRange(positions, |cands|) && AllInBounds(cands, keys)
    ensures AllInBounds(At(positions, cands), keys)
  {
    forall k | 0 <= k < |positions| ensures 0 <= At(positions, cands)[k] < |keys| {
      assert 0 <= cands[positions[k]] < |keys|;
    }
  }

  lemma {:induction false} LeftInBounds(cands: seq<int>, keys: seq<string>, step: nat, s: nat, i: nat)
    requires step > 0 && s < step && AllInBounds(cands, keys)
    ensures AllInBounds(LeftFrom(cands, step, s, i), keys) && AllInBounds(LeftLanes(cands, step, s), keys)
    ensures AllInBounds(LeftLanes(cands, step, s + 1), keys)
  {
    LaneInRange(|cands|, step, i);
    LanesInRange(|cands|, step, s);
    LanesInRange(|cands|, step, s + 1);
    AtInBounds(Lane(|cands|, step, i) + Lanes(|cands|, step, s + 1), cands, keys);
    AtInBounds(Lanes(|cands|, step, s), cands, keys);
    AtInBounds(Lanes(|cands|, step, s + 1), cands, keys);
  }

  lemma {:induction false} GreedyTakes(order: seq<int>, keys: seq<string>, seen: set<string>, result: set<int>,
                                       budget: nat)
    requires AllInBounds(order, keys) && order != [] && budget > 0
    ensures AllInBounds(order[1..], keys)
    ensures var h := keys[order[0]];
            Greedy(order, keys, seen, result, budget) ==
              if h in seen then Greedy(order[1..], keys, seen, result, budget)
              else Greedy(order[1..], keys, seen + {h}, result + {order[0]}, budget - 1)
  {
  }

  /** What greedy filling gives from lane s on. */
  ghost function FromLane(cands: seq<int>, keys: seq<string>, step: nat, s: nat, seen: set<string>, result: set<int>,
                          budget: nat): set<int>
    requires step > 0 && s <= step && AllInBounds(cands, keys)
  {
    LanesInRange(|cands|, step, s);
    AtInBounds(Lanes(|cands|, step, s), cands, keys);
    Greedy(LeftLanes(cands, step, s), keys, seen, result, budget)
  }

  /** What it gives from position i of lane s on. */
  ghost function FromPosition(cands: seq<int>, keys: seq<string>, step: nat, s: nat, i: nat,
                              seen: set<string>, result: set<int>, budget: nat): set<int>
    requires step > 0 && s < step && AllInBounds(cands, keys)
  {
    LeftInBounds(cands, keys, step, s, i);
    Greedy(LeftFrom(cands, step, s, i), keys, seen, result, budget)
  }

  lemma {:induction false} FromLaneStarts(cands: seq<int>, keys: seq<string>, step: nat, s: nat, seen: set<string>,
                                          result: set<int>, budget: nat)
    requires step > 0 && s < step && AllInBounds(cands, keys)
    ensures FromLane(cands, keys, step, s, seen, result, budget)
         == FromPosition(cands, keys, step, s, s, seen, result, budget)
  {
    LaneStarts(cands, step, s);
  }

  lemma {:induction false} FromPositionEnds(cands: seq<int>, keys: seq<string>, step: nat, s: nat, i: nat,
                                            seen: set<string>, result: set<int>, budget: nat)
    requires step > 0 && s < step && AllInBounds(cands, keys) && (i >= |cands| || budget == 0)
    ensures FromPosition(cands, keys, step, s, i, seen, result, budget)
         == FromLane(cands, keys, step, s + 1, seen, result, budget)
  {
    if i >= |cands| {
      LaneEnds(cands, step, s, i);
    }
  }

  lemma {:induction false} FromPositionMoves(cands: seq<int>, keys: seq<string>, step: nat, s: nat, i: nat,
                                             seen: set<string>, result: set<int>, budget: nat)
    requires step > 0 && s < step && AllInBounds(cands, keys) && i < |cands| && budget > 0
    ensures var h := keys[cands[i]];
            FromPosition(cands, keys, step, s, i, seen, result, budget) ==
              if h in seen then FromPosition(cands, keys, step, s, i + step, seen, result, budget)
              else FromPosition(cands, keys, step, s, i + step, seen + {h}, result + {cands[i]}, budget - 1)
  {
    var rest := LeftFrom(cands, step, s, i + step);
    LeftInBounds(cands, keys, step, s, i);
    LeftInBounds(cands, keys, step, s, i + step);
    LaneMoves(cands, step, s, i);
    assert ([cands[i]] + rest)[1..] == rest;
    GreedyTakes(LeftFrom(cands, step, s, i), keys, seen, result, budget);
  }

  /** One lane of the double loop. */
  method FillLane(cands: seq<int>, keys: seq<string>, step: nat, startOffset: nat, remaining: nat,
                  seen0: set<string>, result0: set<int>, added0: nat)
    returns (seen: set<string>, result: set<int>, added: nat)
    requires step > 0 && startOffset < step && AllInBounds(cands, keys) && added0 <= remaining
    ensures added <= remaining
    ensures FromLane(cands, keys, step, startOffset + 1, seen, result, remaining - added)
         == FromLane(cands, keys, step, startOffset, seen0, result0, remaining - added0)
  {
    seen, result, added := seen0, result0, added0;
    var i := startOffset;
    FromLaneStarts(cands, keys, step, startOffset, seen, result, remaining - added);
    while i < |cands|
      invariant added <= remaining
      invariant FromPosition(cands, keys, step, startOffset, i, seen, result, remaining - added)
             == FromLane(cands, keys, step, startOffset, seen0, result0, remaining - added0)
      decreases |cands| - i
    {
      if added >= remaining {
        break;
      }
      FromPositionMoves(cands, keys, step, startOffset, i, seen, result, remaining - added);
      var idx := cands[i];
      var h := keys[idx];
      if h !in seen {
        result := result + {idx};
        seen := seen + {h};
        added := added + 1;
      }
      i := i + step;
    }
    FromPositionEnds(cands, keys, step, startOffset, i, seen, result, remaining - added);
  }

  /** The strided double loop over the candidates. */
  method FillLanes(cands: seq<int>, keys: seq<string>, step: nat, seen0: set<string>, keep: set<int>, remaining: nat)
    returns (result: set<int>)
    requires step > 0 && AllInBounds(cands, keys)
    ensures result == FromLane(cands, keys, step, 0, seen0, keep, remaining)
  {
    result := keep;
    var seen := seen0;
    var added: nat, startOffset: nat := 0, 0;
    while startOffset < step
      invariant startOffset <= step && added <= remaining
      invariant FromLane(cands, keys, step, startOffset, seen, result, remaining - added)
             == FromLane(cands, keys, step, 0, seen0, keep, remaining)
    {
      if added >= remaining {
        return;
      }
      seen, result, added := FillLane(cands, keys, step, startOffset, remaining, seen, result, added);
      startOffset := startOffset + 1;
    }
  }

  lemma {:induction false} NothingToFill(keep: set<int>, keys: seq<string>, effectiveMax: int)
    requires SatSub(effectiveMax, |keep|) == 0 || Candidates(keep, |keys|) == []
    ensures Filled(keep, keys, effectiveMax) == keep
  {
    var cands, remaining := Candidates(keep, |keys|), SatSub(effectiveMax, |keep|);
    var step := Stride(|cands|, remaining);
    VisitOrderInBounds(keep, keys, step);
    if cands == [] {
      NoLanes(step, 0);
    }
  }

  method FillRemainingSlots(keep: set<int>, keys: seq<string>, effectiveMax: int) returns (result: set<int>)
    ensures result == Filled(keep, keys, effectiveMax)
  {
    var remaining := SatSub(effectiveMax, |keep|);
    if remaining == 0 {
      NothingToFill(keep, keys, effectiveMax);
      return keep;
    }
    var seen := set i | i in keep && 0 <= i < |keys| :: keys[i];
    var cands := Candidates(keep, |keys|);
    if |cands| == 0 {
      NothingToFill(keep, keys, effectiveMax);
      return keep;
    }
    result := FillLanes(cands, keys, Stride(|cands|, remaining), seen, keep, remaining);
  }

  lemma {:induction false} NoLanes(step: nat, s: nat)
    requires step > 0 && s <= step
    ensures Lanes(0, step, s) == []
    decreases step - s
  {
    if s < step {
      NoLanes(step, s + 1);
    }
  }

  // ---- the budget ----

  const FIRST_ANCHOR_COUNT: nat := 3
  const LAST_ANCHOR_COUNT: nat := 2

  function Range(a: nat, b: nat): (r: seq<int>)
    ensures forall x :: x in r <==> a <= x < b
    decreases b - a
  {
    if a >= b then [] else [a] + Range(a + 1, b)
  }

  /** The first three rows, then the last two. */
  function AnchorRows(n: nat): seq<int> {
    Range(0, Min(FIRST_ANCHOR_COUNT, n)) + Range(SatSub(n, LAST_ANCHOR_COUNT), n)
  }

  /** What the detectors flag, as given: error rows, structural outliers, anomalies. */
  datatype Flags = Flags(errors: seq<int>, outliers: seq<int>, anomalies: set<int>)

  ghost function Criticals(flags: Flags, n: nat): set<int> {
    (set i | i in flags.errors && 0 <= i < n) + (set i | i in flags.outliers && 0 <= i < n) + flags.anomalies
  }

  /** After dedup and filling, before the budget is enforced. */
  ghost function Current(dedup: bool, keep: set<int>, keys: seq<string>, effectiveMax: int): set<int> {
    var current := if dedup then Deduped(keep, keys) else keep;
    if |current| < effectiveMax && |current| < |keys| then Filled(current, keys, effectiveMax) else current
  }

  /** The criticals, and anchors as far as the budget goes. */
  ghost function Anchored(critical: set<int>, n: nat, effectiveMax: int): set<int> {
    TopUp(critical, AnchorRows(n), SatSub(effectiveMax, |critical|))
  }

  /** The lowest of the other rows, as far as the budget goes. */
  ghost function WithOthers(anchored: set<int>, current: set<int>, remaining: nat): set<int> {
    TopUp(anchored, Sorted(current - anchored), remaining)
  }

  /** The budget left after the anchors. */
  ghost function LeftOver(critical: set<int>, n: nat, effectiveMax: int): nat {
    SatSub(|critical| + SatSub(effectiveMax, |critical|), |Anchored(critical, n, effectiveMax)|)
  }

  /** Within budget, everything; over it, the criticals, then anchors, then others. */
  ghost function Resolved(current: set<int>, critical: set<int>, n: nat, effectiveMax: int): set<int> {
    if |current| <= effectiveMax then current
    else
      WithOthers(Anchored(critical, n, effectiveMax), current, LeftOver(critical, n, effectiveMax))
  }

  ghost function Prioritized(dedup: bool, keep: set<int>, keys: seq<string>, flags: Flags,
                             effectiveMax: int): set<int> {
    Resolved(Current(dedup, keep, keys, effectiveMax), Criticals(flags, |keys|), |keys|, effectiveMax)
  }

  method InBoundsOnly(rows: seq<int>, n: nat, base: set<int>) returns (out: set<int>)
    ensures out == base + (set i | i in rows && 0 <= i < n)
  {
    out := base;
    for k := 0 to |rows|
      invariant out == base + (set i | i in rows[..k] && 0 <= i < n)
    {
      PrefixSnoc(rows, k);
      if 0 <= rows[k] < n {
        out := out + {rows[k]};
      }
    }
    assert rows[..|rows|] == rows;
  }

  method CriticalRows(flags: Flags, n: nat) returns (result: set<int>)
    ensures result == Criticals(flags, n)
  {
    result := InBoundsOnly(flags.errors, n, {});
    result := InBoundsOnly(flags.outliers, n, result);
    result := result + flags.anomalies;
  }

  method EnforceBudget(current: set<int>, flags: Flags, n: nat, effectiveMax: int) returns (result: set<int>)
    requires |current| > effectiveMax
    ensures result == Resolved(current, Criticals(flags, n), n, effectiveMax)
  {
    result := CriticalRows(flags, n);
    var remaining := SatSub(effectiveMax, |result|);
    result, remaining := AddUnder(result, AnchorRows(n), remaining);
    if remaining > 0 {
      var others := SortedIntSet(current - result);
      result, remaining := AddUnder(result, others, remaining);
    }
  }

  method PrioritizeIndices(dedup: bool, keep: set<int>, keys: seq<string>, flags: Flags, effectiveMax: int)
    returns (result: set<int>)
    ensures result == Prioritized(dedup, keep, keys, flags, effectiveMax)
  {
    var current := keep;
    if dedup {
      current := DeduplicateIndicesByContent(keep, keys);
    }
    if |current| < effectiveMax && |current| < |keys| {
      current := FillRemainingSlots(current, keys, effectiveMax);
    }
    if |current| <= effectiveMax {
      return current;
    }
    result := EnforceBudget(current, flags, |keys|, effectiveMax);
  }

  function Max(a: int, b: int): int { if a < b then b else a }

  lemma {:induction false} OthersWithin(current: set<int>, anchored: set<int>, left: nat)
    ensures anchored <= WithOthers(anchored, current, left) && WithOthers(anchored, current, left) <= anchored + current
  {
    var rest := current - anchored;
    TopUpWithin(anchored, Sorted(rest), left);
    SetOfSorted(rest);
  }

  lemma {:induction false} OthersSize(current: set<int>, anchored: set<int>, left: nat)
    ensures |WithOthers(anchored, current, left)| == |anchored| + Min(left, |current - anchored|)
  {
    var rest := current - anchored;
    TopUpSize(anchored, Sorted(rest), left);
    SetOfSorted(rest);
    ApartFrom(rest, anchored);
  }

  lemma {:induction false} ApartFrom(rest: set<int>, base: set<int>)
    requires rest !! base
    ensures rest - base == rest
  {
  }

  lemma {:induction false} OverBudgetSize(current: set<int>, critical: set<int>, n: nat, effectiveMax: int)
    requires |current| > effectiveMax
    ensures |WithOthers(Anchored(critical, n, effectiveMax), current, LeftOver(critical, n, effectiveMax))|
         == Max(effectiveMax, |critical|)
  {
    var anchored, left := Anchored(critical, n, effectiveMax), LeftOver(critical, n, effectiveMax);
    TopUpSize(critical, AnchorRows(n), SatSub(effectiveMax, |critical|));
    OthersSize(current, anchored, left);
    EnoughOthers(current, anchored, left, effectiveMax);
  }

  lemma {:induction false} OverBudgetWithin(current: set<int>, critical: set<int>, n: nat, effectiveMax: int, left: nat)
    ensures var out := WithOthers(Anchored(critical, n, effectiveMax), current, left);
            critical <= out && out <= critical + SetOf(AnchorRows(n)) + current
  {
    var anchored := Anchored(critical, n, effectiveMax);
    TopUpWithin(critical, AnchorRows(n), SatSub(effectiveMax, |critical|));
    OthersWithin(current, anchored, left);
    Chained(critical, anchored, WithOthers(anchored, current, left), SetOf(AnchorRows(n)), current);
  }

  lemma {:induction false} Chained(a: set<int>, b: set<int>, c: set<int>, more: set<int>, others: set<int>)
    requires a <= b && b <= a + more && b <= c && c <= b + others
    ensures a <= c && c <= a + more + others
  {
  }

  /** Over budget, no critical row is lost and the budget is met exactly, unless the
      criticals alone exceed it; otherwise nothing is cut. */
  lemma {:induction false} BudgetIsExact(current: set<int>, critical: set<int>, n: nat, effectiveMax: int)
    ensures |current| <= effectiveMax ==> Resolved(current, critical, n, effectiveMax) == current
    ensures |current| > effectiveMax ==>
      var out := Resolved(current, critical, n, effectiveMax);
      critical <= out && |out| == Max(effectiveMax, |critical|) && out <= critical + SetOf(AnchorRows(n)) + current
  {
    if |current| > effectiveMax {
      OverBudgetSize(current, critical, n, effectiveMax);
      OverBudgetWithin(current, critical, n, effectiveMax, LeftOver(critical, n, effectiveMax));
    }
  }

  lemma {:induction false} EnoughOthers(current: set<int>, anchored: set<int>, left: nat, effectiveMax: int)
    requires |current| > effectiveMax && (left > 0 ==> |anchored| + left <= effectiveMax)
    ensures |current - anchored| >= left
  {
    assert current == (current - anchored) + (current * anchored);
    SubsetSize(current * anchored, anchored);
  }

  // ---- the plan ----

  /** The rows every signal asks for. Change points reach one row to either side. */
  ghost function Signals(keys: seq<string>, anchors: seq<int>, mustKeep: seq<seq<int>>, anomalies: set<int>,
                         changePoints: seq<int>, preserveChangePoints: bool, query: set<int>): set<int> {
    SetOf(anchors) + MustKeep(mustKeep, |keys|) + anomalies
      + (if preserveChangePoints then Windows(changePoints, |keys|) else {}) + query
  }

  ghost function MustKeep(lists: seq<seq<int>>, n: nat): set<int> {
    if lists == [] then {} else (set i | i in lists[0] && 0 <= i < n) + MustKeep(lists[1..], n)
  }

  function Near(cp: int): set<int> { {cp - 1, cp, cp + 1} }

  ghost function Windows(changePoints: seq<int>, n: nat): set<int> {
    if changePoints == [] then {}
    else (set i | i in Near(changePoints[0]) && 0 <= i < n) + Windows(changePoints[1..], n)
  }

  method ApplyConstraints(lists: seq<seq<int>>, n: nat, keep: set<int>) returns (out: set<int>)
    ensures out == keep + MustKeep(lists, n)
  {
    out := keep;
    for k := 0 to |lists|
      invariant out + MustKeep(lists[k..], n) == keep + MustKeep(lists, n)
    {
      assert lists[k..][1..] == lists[k + 1..];
      out := InBoundsOnly(lists[k], n, out);
    }
  }

  method AddWindows(changePoints: seq<int>, n: nat, keep: set<int>) returns (out: set<int>)
    ensures out == keep + Windows(changePoints, n)
  {
    out := keep;
    for k := 0 to |changePoints|
      invariant out + Windows(changePoints[k..], n) == keep + Windows(changePoints, n)
    {
      assert changePoints[k..][1..] == changePoints[k + 1..];
      var cp := changePoints[k];
      ghost var before := out;
      out := InBoundsOnly([cp - 1, cp, cp + 1], n, out);
      assert out == before + (set i | i in Near(cp) && 0 <= i < n);
    }
  }

  method PlanSmartSample(keys: seq<string>, anchors: seq<int>, mustKeep: seq<seq<int>>, changePoints: seq<int>,
                         preserveChangePoints: bool, query: set<int>, dedup: bool, flags: Flags, maxItems: int)
    returns (plan: seq<int>)
    ensures plan == Sorted(Prioritized(dedup,
              Signals(keys, anchors, mustKeep, flags.anomalies, changePoints, preserveChangePoints,
                      query), keys, flags, maxItems))
  {
    var keep := set i | i in anchors;
    keep := ApplyConstraints(mustKeep, |keys|, keep);
    keep := keep + flags.anomalies;
    if preserveChangePoints {
      keep := AddWindows(changePoints, |keys|, keep);
    }
    keep := keep + query;
    assert keep == Signals(keys, anchors, mustKeep, flags.anomalies, changePoints, preserveChangePoints, query);
    var finalKeep := PrioritizeIndices(dedup, keep, keys, flags, maxItems);
    plan := SortedIntSet(finalKeep);
  }

  /** Whatever was asked to be kept and is in bounds is kept, itself or, under dedup,
      by a lower row with the same content, unless the budget cuts it. */
  lemma {:induction false} CurrentRepresents(dedup: bool, keep: set<int>, keys: seq<string>, effectiveMax: int, i: int)
    returns (r: int)
    requires i in keep && InBounds(i, keys)
    ensures r in Current(dedup, keep, keys, effectiveMax) && 0 <= r <= i && keys[r] == keys[i] && (!dedup ==> r == i)
  {
    r := i;
    var current := keep;
    if dedup {
      r := DedupRepresents(keep, keys, i);
      current := Deduped(keep, keys);
    }
    FillIsExact(current, keys, effectiveMax);
  }

  /** All in bounds, and no content twice. */
  ghost predicate Distinct(rows: set<int>, keys: seq<string>) {
    && (forall x :: x in rows ==> 0 <= x < |keys|)
    && (forall x, y :: x in rows && y in rows && x < y ==> keys[x] != keys[y])
  }

  lemma {:induction false} DedupedRepeatsNothing(keep: set<int>, keys: seq<string>)
    ensures Distinct(Deduped(keep, keys), keys)
  {
    forall x, y | x in Deduped(keep, keys) && y in Deduped(keep, keys) && x < y ensures keys[x] != keys[y] {
      DedupIsDistinct(keep, keys, x, y);
    }
  }

  lemma {:induction false} FilledRepeatsNothing(keep: set<int>, keys: seq<string>, effectiveMax: int)
    requires Distinct(keep, keys)
    ensures Distinct(Filled(keep, keys, effectiveMax), keys)
  {
    var out := Filled(keep, keys, effectiveMax);
    FillIsExact(keep, keys, effectiveMax);
    forall x | x in out ensures 0 <= x < |keys| && (x !in keep ==> keys[x] !in KeysAt(keep, keys)) {
      assert x in keep || x in out - keep;
    }
    forall x, y | x in out && y in out && x < y ensures keys[x] != keys[y] {
      assert x in keep || x in out - keep;
      assert y in keep || y in out - keep;
      assert x in keep ==> keys[x] in KeysAt(keep, keys);
      assert y in keep ==> keys[y] in KeysAt(keep, keys);
    }
  }

  /** Under dedup a plan within its budget names no content twice. */
  lemma {:induction false} PlanRepeatsNothing(keep: set<int>, keys: seq<string>, flags: Flags, maxItems: int)
    requires |Current(true, keep, keys, maxItems)| <= maxItems
    ensures Distinct(Prioritized(true, keep, keys, flags, maxItems), keys)
  {
    DedupedRepeatsNothing(keep, keys);
    FilledRepeatsNothing(Deduped(keep, keys), keys, maxItems);
    BudgetIsExact(Current(true, keep, keys, maxItems), Criticals(flags, |keys|), |keys|, maxItems);
  }

  /** With the default constraint stack, every error, outlier or anomaly is in the
      plan, itself or by a lower row with the same content, whatever the budget. */
  lemma {:induction false} PlanKeepsCriticals(keys: seq<string>, anchors: seq<int>, changePoints: seq<int>,
                                              preserveChangePoints: bool,
                                              query: set<int>, dedup: bool, flags: Flags, maxItems: int,
                                              c: int) returns (r: int)
    requires (c in flags.errors || c in flags.outliers || c in flags.anomalies) && InBounds(c, keys)
    ensures var keep := Signals(keys, anchors, [flags.errors, flags.outliers], flags.anomalies, changePoints,
                                preserveChangePoints, query);
            r in Sorted(Prioritized(dedup, keep, keys, flags, maxItems))
    ensures 0 <= r <= c && keys[r] == keys[c] && (!dedup ==> r == c)
  {
    var stack := [flags.errors, flags.outliers];
    var keep := Signals(keys, anchors, stack, flags.anomalies, changePoints, preserveChangePoints, query);
    assert stack[1..] == [flags.outliers] && stack[1..][1..] == [];
    assert c in MustKeep(stack, |keys|) + flags.anomalies;
    BudgetIsExact(Current(dedup, keep, keys, maxItems), Criticals(flags, |keys|), |keys|, maxItems);
    if |Current(dedup, keep, keys, maxItems)| <= maxItems {
      r := CurrentRepresents(dedup, keep, keys, maxItems, c);
    } else {
      r := c;
    }
  }
}
