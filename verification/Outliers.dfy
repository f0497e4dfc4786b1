/** Which rows count as structural outliers: internal/smartcrusher/outliers.go. */
module Outliers {

  // Thresholds are exact fractions.

  import opened Common
  import opened IntSets
  import Compaction

  /** A field's value, by the text it is compared as. */
  datatype Val = NullVal | Text(text: string)

  /** An item: an object's fields, or nothing for an element that is no object. */
  type Item = Option<map<string, Val>>

  const NULL_SENTINEL := "__none__"

  function KeyOf(v: Val): string { if v.NullVal? then NULL_SENTINEL else v.text }

  predicate Carries(item: Item, name: string) { item.Some? && name in item.value }

  // ---- counting ----

  function FieldCount(items: seq<Item>, name: string): nat {
    if items == [] then 0
    else (if Carries(items[|items| - 1], name) then 1 else 0) + FieldCount(items[..|items| - 1], name)
  }

  function CountKey(ks: seq<string>, k: string): nat {
    if ks == [] then 0 else (if ks[|ks| - 1] == k then 1 else 0) + CountKey(ks[..|ks| - 1], k)
  }

  /** The rows carrying the field, ascending. */
  function Carriers(items: seq<Item>, name: string, n: nat): (r: seq<int>)
    requires n <= |items|
    ensures forall i :: i in r <==> 0 <= i < n && Carries(items[i], name)
    ensures forall c :: 0 <= c < |r| ==> 0 <= r[c] < n && Carries(items[r[c]], name)
    ensures Ascending(r) && |r| == FieldCount(items[..n], name)
  {
    if n == 0 then []
    else
      assert items[..n][..n - 1] == items[..n - 1];
      if Carries(items[n - 1], name) then Carriers(items, name, n - 1) + [n - 1] else Carriers(items, name, n - 1)
  }

  /** Their values' keys, in the same order. */
  function KeysOf(items: seq<Item>, name: string): (r: seq<string>)
    ensures |r| == |Carriers(items, name, |items|)|
    ensures forall k :: 0 <= k < |r| ==> r[k] == KeyOf(items[Carriers(items, name, |items|)[k]].value[name])
  {
    var rows := Carriers(items, name, |items|);
    seq(|rows|, k requires 0 <= k < |rows| => KeyOf(items[rows[k]].value[name]))
  }

  /** The distinct values that are not null. */
  function Distinct(items: seq<Item>, name: string): set<string> {
    set i | 0 <= i < |items| && Carries(items[i], name) && items[i].value[name].Text? :: items[i].value[name].text
  }

  // ---- the dominant cluster ----

  /** More frequent first, keys ascending among equals. */
  predicate Ahead(ks: seq<string>, a: string, b: string) {
    CountKey(ks, a) > CountKey(ks, b) || (CountKey(ks, a) == CountKey(ks, b) && Compaction.LexLess(a, b))
  }

  ghost predicate InOrder(ks: seq<string>, order: seq<string>) {
    forall i, j :: 0 <= i < j < |order| ==> Ahead(ks, order[i], order[j])
  }

  function InsertKey(ks: seq<string>, order: seq<string>, k: string): seq<string> {
    if order == [] then [k]
    else if order[0] == k then order
    else if Ahead(ks, k, order[0]) then [k] + order
    else [order[0]] + InsertKey(ks, order[1..], k)
  }

  lemma {:induction false} AheadTransitive(ks: seq<string>, a: string, b: string, c: string)
    requires Ahead(ks, a, b) && Ahead(ks, b, c)
    ensures Ahead(ks, a, c)
  {
    if Compaction.LexLess(a, b) && Compaction.LexLess(b, c) {
      Compaction.LexTransitive(a, b, c);
    }
  }

  lemma {:induction false} InsertInOrder(ks: seq<string>, order: seq<string>, k: string)
    requires InOrder(ks, order)
    ensures InOrder(ks, InsertKey(ks, order, k))
    ensures forall x :: x in InsertKey(ks, order, k) <==> x in order || x == k
  {
    var r := InsertKey(ks, order, k);
    if order == [] || order[0] == k {
    } else if Ahead(ks, k, order[0]) {
      forall j | 1 <= j < |r| ensures Ahead(ks, k, r[j]) {
        if j > 1 {
          AheadTransitive(ks, k, order[0], order[j - 1]);
        }
      }
    } else {
      Compaction.LexTotal(k, order[0]);
      var tail := InsertKey(ks, order[1..], k);
      InsertInOrder(ks, order[1..], k);
      forall j | 0 <= j < |tail| ensures Ahead(ks, order[0], tail[j]) {
        assert tail[j] in tail;
        if tail[j] != k {
          var i :| 0 <= i < |order[1..]| && order[1..][i] == tail[j];
        }
      }
    }
  }

  /** The distinct keys of the first n, in Pareto order. */
  function ParetoTo(ks: seq<string>, n: nat): seq<string>
    requires n <= |ks|
  {
    if n == 0 then [] else InsertKey(ks, ParetoTo(ks, n - 1), ks[n - 1])
  }

  function Pareto(ks: seq<string>): seq<string> { ParetoTo(ks, |ks|) }

  lemma {:induction false} ParetoIs(ks: seq<string>, n: nat)
    requires n <= |ks|
    ensures InOrder(ks, ParetoTo(ks, n)) && forall x :: x in ParetoTo(ks, n) <==> x in ks[..n]
  {
    if n > 0 {
      ParetoIs(ks, n - 1);
      InsertInOrder(ks, ParetoTo(ks, n - 1), ks[n - 1]);
      PrefixSnoc(ks, n - 1);
    }
  }

  lemma {:induction false} InOrderIsUnique(ks: seq<string>, order: seq<string>)
    requires InOrder(ks, order)
    ensures Unique(order)
  {
    forall i, j | 0 <= i < j < |order| ensures order[i] != order[j] {
      Compaction.LexTotal(order[i], order[i]);
    }
  }

  /** How many of ks are among the first n of order. */
  ghost function Coverage(ks: seq<string>, order: seq<string>, n: nat): nat
    requires n <= |order|
  {
    if n == 0 then 0 else Coverage(ks, order, n - 1) + CountKey(ks, order[n - 1])
  }

  /** ceil(0.8 total) */
  function Threshold(total: nat): (t: nat)
    ensures 5 * t >= 4 * total && 5 * t < 4 * total + 5 && t <= total
  {
    (4 * total + 4) / 5
  }

  /** The shortest prefix that covers the threshold, or all of it. */
  ghost predicate Covers(ks: seq<string>, order: seq<string>, n: nat) {
    && n <= |order|
    && (forall m :: 0 <= m < n ==> m == 0 || Coverage(ks, order, m) < Threshold(|ks|))
    && (n == |order| || (n > 0 && Coverage(ks, order, n) >= Threshold(|ks|)))
  }

  ghost function Outside(ks: seq<string>, cluster: seq<string>): nat {
    if ks == [] then 0
    else Outside(ks[..|ks| - 1], cluster) + (if ks[|ks| - 1] in cluster then 0 else 1)
  }

  lemma {:induction false} CoverageSnoc(ks: seq<string>, k: string, order: seq<string>, n: nat)
    requires n <= |order| && Unique(order)
    ensures Coverage(ks + [k], order, n) == Coverage(ks, order, n) + if k in order[..n] then 1 else 0
  {
    assert (ks + [k])[..|ks|] == ks;
    if n > 0 {
      CoverageSnoc(ks, k, order, n - 1);
      PrefixSnoc(order, n - 1);
    }
  }

  /** What the cluster does not cover is what lies outside it. */
  lemma {:induction false} CoverageIs(ks: seq<string>, order: seq<string>, n: nat)
    requires n <= |order| && Unique(order)
    ensures Coverage(ks, order, n) + Outside(ks, order[..n]) == |ks|
  {
    if ks == [] {
      NothingCovered(order, n);
    } else {
      var init := ks[..|ks| - 1];
      CoverageIs(init, order, n);
      CoverageSnoc(init, ks[|ks| - 1], order, n);
      assert ks == init + [ks[|ks| - 1]];
    }
  }

  lemma {:induction false} NothingCovered(order: seq<string>, n: nat)
    requires n <= |order|
    ensures Coverage([], order, n) == 0
  {
    if n > 0 {
      NothingCovered(order, n - 1);
    }
  }

  lemma {:induction false} NoneOutside(ks: seq<string>, cluster: seq<string>)
    requires forall i :: 0 <= i < |ks| ==> ks[i] in cluster
    ensures Outside(ks, cluster) == 0
  {
    if ks != [] {
      NoneOutside(ks[..|ks| - 1], cluster);
    }
  }

  /** At most a fifth of the values lie outside the cluster. */
  lemma {:induction false} AtMostAFifth(ks: seq<string>, n: nat)
    requires Covers(ks, Pareto(ks), n)
    ensures 5 * Outside(ks, Pareto(ks)[..n]) <= |ks|
  {
    var order := Pareto(ks);
    ParetoIs(ks, |ks|);
    assert ks[..|ks|] == ks;
    InOrderIsUnique(ks, order);
    CoverageIs(ks, order, n);
    if n == |order| {
      assert order[..n] == order;
      forall i | 0 <= i < |ks| ensures ks[i] in order {
        assert ks[i] in ks;
      }
      NoneOutside(ks, order);
    }
  }

  /** Every value in the cluster is at least as frequent as every value outside it. */
  lemma {:induction false} ClusterDominates(ks: seq<string>, n: nat, a: string, b: string)
    requires Covers(ks, Pareto(ks), n) && a in Pareto(ks)[..n] && b in ks && b !in Pareto(ks)[..n]
    ensures CountKey(ks, a) >= CountKey(ks, b)
  {
    var order := Pareto(ks);
    ParetoIs(ks, |ks|);
    assert ks[..|ks|] == ks;
    assert b in order;
    var i :| 0 <= i < n && order[i] == a;
    var j :| 0 <= j < |order| && order[j] == b;
    LaterThan(order, n, j);
  }

  lemma {:induction false} LaterThan(order: seq<string>, n: nat, j: nat)
    requires n <= |order| && j < |order| && order[j] !in order[..n]
    ensures j >= n
  {
    forall t | 0 <= t < n ensures order[t] in order[..n] {
      assert order[..n][t] == order[t];
    }
  }

  // ---- rare values of a common field ----

  const CARDINALITY_MIN: nat := 2
  const CARDINALITY_MAX: nat := 50
  const MAX_TOP_K: nat := 5

  /** The shortest covering prefix, from n on. */
  function ClusterFrom(ks: seq<string>, order: seq<string>, n: nat, cumulative: nat): (r: nat)
    requires n <= |order|
    ensures n <= r <= |order|
    decreases |order| - n
  {
    if n == |order| then n
    else if cumulative + CountKey(ks, order[n]) >= Threshold(|ks|) then n + 1
    else ClusterFrom(ks, order, n + 1, cumulative + CountKey(ks, order[n]))
  }

  /** The Pareto-dominant values of the field. */
  function Cluster(ks: seq<string>): seq<string> { Pareto(ks)[..ClusterFrom(ks, Pareto(ks), 0, 0)] }

  lemma {:induction false} ClusterCovers(ks: seq<string>, order: seq<string>, n: nat, cumulative: nat)
    requires n <= |order| && cumulative == Coverage(ks, order, n)
    requires forall m :: 0 < m <= n ==> Coverage(ks, order, m) < Threshold(|ks|)
    ensures Covers(ks, order, ClusterFrom(ks, order, n, cumulative))
    decreases |order| - n
  {
    if n < |order| && cumulative + CountKey(ks, order[n]) < Threshold(|ks|) {
      ClusterCovers(ks, order, n + 1, cumulative + CountKey(ks, order[n]));
    }
  }

  method DominantCluster(ks: seq<string>) returns (cluster: seq<string>)
    ensures cluster == Cluster(ks)
  {
    var order := Pareto(ks);
    var cumulative, n := 0, 0;
    while n < |order|
      invariant 0 <= n <= |order| && cumulative >= 0
      invariant ClusterFrom(ks, order, n, cumulative) == ClusterFrom(ks, order, 0, 0)
    {
      cumulative := cumulative + CountKey(ks, order[n]);
      n := n + 1;
      if cumulative >= Threshold(|ks|) {
        return order[..n];
      }
    }
    return order[..n];
  }

  /** At most a fifth of a field's values lie outside its cluster, each no more
      frequent than any inside. */
  lemma {:induction false} ClusterIsDominant(ks: seq<string>)
    ensures 5 * Outside(ks, Cluster(ks)) <= |ks|
    ensures forall a, b :: a in Cluster(ks) && b in ks && b !in Cluster(ks) ==> CountKey(ks, a) >= CountKey(ks, b)
  {
    var n := ClusterFrom(ks, Pareto(ks), 0, 0);
    ClusterCovers(ks, Pareto(ks), 0, 0);
    AtMostAFifth(ks, n);
    forall a, b | a in Cluster(ks) && b in ks && b !in Cluster(ks) ensures CountKey(ks, a) >= CountKey(ks, b) {
      ClusterDominates(ks, n, a, b);
    }
  }

  /** The field has between two and fifty distinct values, and at most five of them
      make up its cluster. */
  predicate Qualifies(items: seq<Item>, name: string) {
    CARDINALITY_MIN <= |Distinct(items, name)| <= CARDINALITY_MAX && |Cluster(KeysOf(items, name))| <= MAX_TOP_K
  }

  /** Row i carries the field with a value outside its cluster. */
  predicate RareAt(items: seq<Item>, name: string, i: int) {
    && 0 <= i < |items| && Carries(items[i], name) && Qualifies(items, name)
    && KeyOf(items[i].value[name]) !in Cluster(KeysOf(items, name))
  }

  ghost predicate OutsideAt(items: seq<Item>, name: string, i: int, cluster: seq<string>) {
    0 <= i < |items| && Carries(items[i], name) && KeyOf(items[i].value[name]) !in cluster
  }

  method CollectOutside(items: seq<Item>, name: string, carriers: seq<int>, ks: seq<string>, cluster: seq<string>)
    returns (rows: seq<int>)
    requires |carriers| == |ks|
    requires forall c :: 0 <= c < |ks| ==>
      0 <= carriers[c] < |items| && Carries(items[carriers[c]], name) && ks[c] == KeyOf(items[carriers[c]].value[name])
    ensures |rows| == Outside(ks, cluster)
    ensures forall i :: i in rows <==> i in carriers && OutsideAt(items, name, i, cluster)
  {
    rows := [];
    for c := 0 to |carriers|
      invariant |rows| == Outside(ks[..c], cluster)
      invariant forall i :: i in rows <==> i in carriers[..c] && OutsideAt(items, name, i, cluster)
    {
      PrefixSnoc(carriers, c);
      assert ks[..c + 1][..c] == ks[..c];
      if ks[c] !in cluster {
        rows := rows + [carriers[c]];
      }
    }
    assert ks[..|carriers|] == ks && carriers[..|carriers|] == carriers;
  }

  /** The rows of one field that DetectRareStatusValues flags; never more than a fifth
      of those that carry it. */
  method RareStatus(items: seq<Item>, name: string) returns (rows: seq<int>)
    ensures forall i :: i in rows <==> RareAt(items, name, i)
    ensures 5 * |rows| <= FieldCount(items, name)
  {
    var distinct := |Distinct(items, name)|;
    if distinct < CARDINALITY_MIN || distinct > CARDINALITY_MAX {
      return [];
    }
    var carriers, ks := Carriers(items, name, |items|), KeysOf(items, name);
    assert items[..|items|] == items;
    var cluster := DominantCluster(ks);
    if |cluster| > MAX_TOP_K {
      return [];
    }
    ClusterIsDominant(ks);
    rows := CollectOutside(items, name, carriers, ks, cluster);
  }

  // ---- structural outliers ----

  const MIN_ITEMS_FOR_OUTLIER_DETECTION: nat := 5

  predicate IsCommon(items: seq<Item>, name: string) { 5 * FieldCount(items, name) >= 4 * |items| }

  /** Strictly fewer than a fifth of all items carry it. */
  predicate IsRare(items: seq<Item>, name: string) { 5 * FieldCount(items, name) < |items| }

  ghost predicate HasRareField(items: seq<Item>, i: int) {
    0 <= i < |items| && exists name :: Carries(items[i], name) && IsRare(items, name)
  }

  ghost predicate HasRareStatus(items: seq<Item>, i: int) {
    exists name :: IsCommon(items, name) && RareAt(items, name, i)
  }

  ghost function StructuralOutliers(items: seq<Item>): set<int> {
    if |items| < MIN_ITEMS_FOR_OUTLIER_DETECTION then {}
    else set i | 0 <= i < |items| && (HasRareField(items, i) || HasRareStatus(items, i))
  }

  /** All field names met. */
  function FieldNames(items: seq<Item>, n: nat): (r: set<string>)
    requires n <= |items|
    ensures forall name :: name in r <==> exists i :: 0 <= i < n && Carries(items[i], name)
  {
    if n == 0 then {}
    else FieldNames(items, n - 1) + (if items[n - 1].Some? then items[n - 1].value.Keys else {})
  }

  /** Folds in the rare-status rows of each common field, in whatever order. */
  method RareStatusRows(items: seq<Item>, commonFields: set<string>) returns (out: set<int>)
    ensures forall i :: i in out <==> exists name :: name in commonFields && RareAt(items, name, i)
  {
    out := {};
    var rest := commonFields;
    while rest != {}
      invariant rest <= commonFields
      invariant forall i :: i in out <==> exists name :: name in commonFields - rest && RareAt(items, name, i)
      decreases |rest|
    {
      NameOrNone(rest);
      var name :| name in rest;
      var rows := RareStatus(items, name);
      ghost var before := out;
      out := out + set i | i in rows;
      forall i ensures i in out <==>
        exists other :: other in commonFields - (rest - {name}) && RareAt(items, other, i) {
        if i in before {
          var other :| other in commonFields - rest && RareAt(items, other, i);
          assert other in commonFields - (rest - {name});
        }
        if RareAt(items, name, i) {
          assert name in commonFields - (rest - {name});
        }
      }
      rest := rest - {name};
    }
  }

  lemma {:induction false} NameOrNone(s: set<string>)
    ensures s == {} || exists x :: x in s
  {
    if forall x :: x !in s {
      assert s == {};
    }
  }

  ghost predicate CarriesAny(item: Item, names: set<string>) { exists name :: Carries(item, name) && name in names }

  lemma {:induction false} CarriesAnyIff(item: Item, names: set<string>)
    ensures CarriesAny(item, names) <==> item.Some? && item.value.Keys * names != {}
  {
    if item.Some? {
      NameOrNone(item.value.Keys * names);
      if CarriesAny(item, names) {
        var name :| Carries(item, name) && name in names;
        assert name in item.value.Keys * names;
      }
      if item.value.Keys * names != {} {
        var name :| name in item.value.Keys * names;
        assert Carries(item, name) && name in names;
      }
    }
  }

  method RareFieldRows(items: seq<Item>, rareFields: set<string>) returns (out: set<int>)
    ensures forall i :: i in out <==> 0 <= i < |items| && CarriesAny(items[i], rareFields)
  {
    out := {};
    for i := 0 to |items|
      invariant forall j :: j in out <==> 0 <= j < i && CarriesAny(items[j], rareFields)
    {
      CarriesAnyIff(items[i], rareFields);
      if items[i].Some? && items[i].value.Keys * rareFields != {} {
        out := out + {i};
      }
    }
  }

  lemma {:induction false} NameMet(items: seq<Item>, i: int, name: string)
    requires 0 <= i < |items| && Carries(items[i], name)
    ensures name in FieldNames(items, |items|)
  {
  }

  lemma {:induction false} RareFieldIff(items: seq<Item>, rareFields: set<string>, i: int)
    requires rareFields == (set name | name in FieldNames(items, |items|) && IsRare(items, name)) && 0 <= i < |items|
    ensures CarriesAny(items[i], rareFields) <==> HasRareField(items, i)
  {
    if HasRareField(items, i) {
      var name :| Carries(items[i], name) && IsRare(items, name);
      NameMet(items, i, name);
      assert name in rareFields;
    }
  }

  lemma {:induction false} RareStatusIff(items: seq<Item>, commonFields: set<string>, i: int)
    requires commonFields == (set name | name in FieldNames(items, |items|) && IsCommon(items, name))
    ensures (exists name :: name in commonFields && RareAt(items, name, i)) <==> HasRareStatus(items, i)
  {
    if HasRareStatus(items, i) {
      var name :| IsCommon(items, name) && RareAt(items, name, i);
      NameMet(items, i, name);
      assert name in commonFields;
    }
  }

  method DetectStructuralOutliers(items: seq<Item>) returns (result: seq<int>)
    ensures result == Sorted(StructuralOutliers(items))
  {
    if |items| < MIN_ITEMS_FOR_OUTLIER_DETECTION {
      return [];
    }
    var names := FieldNames(items, |items|);
    var rareFields := set name | name in names && IsRare(items, name);
    var commonFields := set name | name in names && IsCommon(items, name);
    var outliers := RareFieldRows(items, rareFields);
    var status := RareStatusRows(items, commonFields);
    forall i ensures i in outliers + status <==> i in StructuralOutliers(items) {
      if 0 <= i < |items| {
        RareFieldIff(items, rareFields, i);
      }
      RareStatusIff(items, commonFields, i);
    }
    assert outliers + status == StructuralOutliers(items);
    result := SortedIntSet(outliers + status);
  }
}
