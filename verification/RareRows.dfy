/** Which rows are outliers, in counts of rows and values:
    internal/smartcrusher/outliers.go. */
module RareRows {

  import opened Common
  import opened IntSets
  import opened Outliers
  import Compaction

  /** The items that carry the field. */
  ghost function Carrying(items: seq<Item>, name: string): set<int> {
    set i | 0 <= i < |items| && Carries(items[i], name)
  }

  lemma {:induction false} FieldCountIs(items: seq<Item>, name: string)
    ensures FieldCount(items, name) == |Carrying(items, name)|
  {
    if items == [] {
      assert Carrying(items, name) == {};
    } else {
      var n := |items| - 1;
      FieldCountIs(items[..n], name);
      assert Carrying(items, name)
          == Carrying(items[..n], name) + if Carries(items[n], name) then {n} else {};
    }
  }

  /** The places at which a value stands. */
  ghost function Places(ks: seq<string>, k: string): set<int> { set i | 0 <= i < |ks| && ks[i] == k }

  lemma {:induction false} CountIs(ks: seq<string>, k: string)
    ensures CountKey(ks, k) == |Places(ks, k)|
  {
    if ks == [] {
      assert Places(ks, k) == {};
    } else {
      var n := |ks| - 1;
      CountIs(ks[..n], k);
      assert Places(ks, k) == Places(ks[..n], k) + if ks[n] == k then {n} else {};
    }
  }

  /** The places at which a value of the cluster stands. */
  ghost function InCluster(ks: seq<string>, cluster: seq<string>): set<int> {
    set i | 0 <= i < |ks| && ks[i] in cluster
  }

  lemma {:induction false} InsideCount(ks: seq<string>, cluster: seq<string>)
    ensures |InCluster(ks, cluster)| + Outside(ks, cluster) == |ks|
  {
    if ks == [] {
      assert InCluster(ks, cluster) == {};
    } else {
      var n := |ks| - 1;
      InsideCount(ks[..n], cluster);
      assert InCluster(ks, cluster) == InCluster(ks[..n], cluster) + if ks[n] in cluster then {n} else {};
    }
  }

  /** Of two values a common one comes first, and of two as common the lower. */
  ghost predicate Outranks(ks: seq<string>, a: string, b: string) {
    |Places(ks, a)| > |Places(ks, b)| || (|Places(ks, a)| == |Places(ks, b)| && Compaction.LexLess(a, b))
  }

  lemma {:induction false} OutranksIff(ks: seq<string>, a: string, b: string)
    ensures Outranks(ks, a, b) <==> Ahead(ks, a, b)
  {
    CountIs(ks, a);
    CountIs(ks, b);
  }

  lemma {:induction false} ClusterSize(ks: seq<string>) returns (n: nat)
    ensures Covers(ks, Pareto(ks), n) && Cluster(ks) == Pareto(ks)[..n]
  {
    n := ClusterFrom(ks, Pareto(ks), 0, 0);
    ClusterCovers(ks, Pareto(ks), 0, 0);
  }

  /** The cluster holds every value that outranks one of its own. */
  lemma {:induction false} ClusterIsTop(ks: seq<string>, a: string, b: string)
    requires a in Cluster(ks) && b in ks && b !in Cluster(ks)
    ensures Outranks(ks, a, b)
  {
    var n := ClusterSize(ks);
    var order := Pareto(ks);
    ParetoIs(ks, |ks|);
    assert ks[..|ks|] == ks && b in order;
    var i :| 0 <= i < n && order[i] == a;
    var j :| 0 <= j < |order| && order[j] == b;
    LaterThan(order, n, j);
    OutranksIff(ks, a, b);
  }

  lemma {:induction false} ParetoCovers(ks: seq<string>, n: nat)
    requires n <= |Pareto(ks)|
    ensures Coverage(ks, Pareto(ks), n) == |InCluster(ks, Pareto(ks)[..n])|
  {
    ParetoIs(ks, |ks|);
    InOrderIsUnique(ks, Pareto(ks));
    CoverageIs(ks, Pareto(ks), n);
    InsideCount(ks, Pareto(ks)[..n]);
  }

  lemma {:induction false} SomethingIsNeeded(ks: seq<string>, n: nat)
    requires Covers(ks, Pareto(ks), n) && ks != []
    ensures n > 0
  {
    ParetoIs(ks, |ks|);
    assert ks[..|ks|] == ks && ks[0] in Pareto(ks);
  }

  lemma {:induction false} LastIsNeeded(ks: seq<string>, n: nat)
    requires Covers(ks, Pareto(ks), n) && n > 0 && ks != []
    ensures 5 * (|InCluster(ks, Pareto(ks)[..n])| - |Places(ks, Pareto(ks)[n - 1])|) < 4 * |ks|
  {
    ParetoCovers(ks, n);
    CountIs(ks, Pareto(ks)[n - 1]);
    assert n - 1 == 0 || Coverage(ks, Pareto(ks), n - 1) < Threshold(|ks|);
  }

  lemma {:induction false} LastRanksLowest(ks: seq<string>, n: nat, a: string)
    requires 0 < n <= |Pareto(ks)| && a in Pareto(ks)[..n] && a != Pareto(ks)[n - 1]
    ensures Outranks(ks, a, Pareto(ks)[n - 1])
  {
    var order := Pareto(ks);
    ParetoIs(ks, |ks|);
    var i :| 0 <= i < n && order[..n][i] == a;
    assert Ahead(ks, order[i], order[n - 1]);
    OutranksIff(ks, a, order[n - 1]);
  }

  /** It covers four fifths of the values, and would not without its last one. */
  lemma {:induction false} ClusterIsLeast(ks: seq<string>) returns (last: string)
    requires ks != []
    ensures 5 * |InCluster(ks, Cluster(ks))| >= 4 * |ks|
    ensures last in Cluster(ks) && 5 * (|InCluster(ks, Cluster(ks))| - |Places(ks, last)|) < 4 * |ks|
    ensures forall a :: a in Cluster(ks) && a != last ==> Outranks(ks, a, last)
  {
    var n := ClusterSize(ks);
    ClusterIsDominant(ks);
    InsideCount(ks, Cluster(ks));
    SomethingIsNeeded(ks, n);
    LastIsNeeded(ks, n);
    last := Pareto(ks)[n - 1];
    assert Cluster(ks)[n - 1] == last;
    forall a | a in Cluster(ks) && a != last ensures Outranks(ks, a, last) {
      LastRanksLowest(ks, n, a);
    }
  }

  /** The row holds a value outside the cluster of a field with two to fifty values of
      which at most five dominate. */
  ghost predicate HoldsRare(items: seq<Item>, name: string, i: int) {
    && 0 <= i < |items| && Carries(items[i], name)
    && 2 <= |Distinct(items, name)| <= 50
    && |Cluster(KeysOf(items, name))| <= 5
    && KeyOf(items[i].value[name]) !in Cluster(KeysOf(items, name))
  }

  /** From five items on, a row is an outlier exactly when it carries a field fewer than
      a fifth of all items carry, or a rare value of one at least four fifths carry. */
  lemma {:induction false} OutlierIff(items: seq<Item>, i: int)
    ensures i in StructuralOutliers(items)
       <==> |items| >= 5 && 0 <= i < |items|
            && exists name :: Carries(items[i], name)
                 && (5 * |Carrying(items, name)| < |items|
                     || (5 * |Carrying(items, name)| >= 4 * |items| && HoldsRare(items, name, i)))
  {
    forall name
      ensures IsRare(items, name) <==> 5 * |Carrying(items, name)| < |items|
      ensures IsCommon(items, name) <==> 5 * |Carrying(items, name)| >= 4 * |items|
    {
      FieldCountIs(items, name);
    }
  }
}
