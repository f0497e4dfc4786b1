/** Sets of indices: sortedIntSet and satSub of internal/smartcrusher/orchestration.go. */
module IntSets {

  import opened Common

  ghost predicate Ascending(s: seq<int>) { forall i, j :: 0 <= i < j < |s| ==> s[i] < s[j] }

  ghost predicate Lists(out: seq<int>, s: set<int>) { Ascending(out) && forall x :: x in out <==> x in s }

  lemma {:induction false} EmptyOrNot(s: set<int>)
    ensures s == {} || exists x :: x in s
  {
    if forall x :: x !in s {
      assert s == {};
    }
  }

  lemma {:induction false} HasLeast(s: set<int>) returns (m: int)
    requires s != {}
    ensures m in s && forall x :: x in s ==> m <= x
  {
    EmptyOrNot(s);
    var x :| x in s;
    if s == {x} {
      m := x;
    } else {
      var rest := HasLeast(s - {x});
      m := if x < rest then x else rest;
      forall y | y in s ensures m <= y {
        assert y != x ==> y in s - {x};
      }
    }
  }

  ghost function Least(s: set<int>): (m: int)
    requires s != {}
    ensures m in s && forall x :: x in s ==> m <= x
  {
    HasLeastExists(s);
    var m :| m in s && forall x :: x in s ==> m <= x;
    m
  }

  lemma {:induction false} HasLeastExists(s: set<int>)
    requires s != {}
    ensures exists m :: m in s && forall x :: x in s ==> m <= x
  {
    var m := HasLeast(s);
  }

  /** The elements in ascending order. */
  ghost function Sorted(s: set<int>): (r: seq<int>)
    ensures Lists(r, s) && |r| == |s|
  {
    if s == {} then [] else [Least(s)] + Sorted(s - {Least(s)})
  }

  lemma {:induction false} HeadListed(a: seq<int>, s: set<int>)
    requires Lists(a, s)
    ensures a != [] ==> a[0] in s
    ensures s != {} ==> a != []
  {
    if a != [] {
      assert a[0] in a;
    }
    EmptyOrNot(s);
  }

  /** Ascending listings of the same set are the same. */
  lemma {:induction false} ListingIsUnique(a: seq<int>, b: seq<int>, s: set<int>)
    requires Lists(a, s) && Lists(b, s)
    ensures a == b
    decreases |a|
  {
    HeadListed(a, s);
    HeadListed(b, s);
    if s != {} {
      var i :| 0 <= i < |b| && b[i] == a[0];
      var j :| 0 <= j < |a| && a[j] == b[0];
      assert a[0] == b[0];
      TailLists(a, s);
      TailLists(b, s);
      ListingIsUnique(a[1..], b[1..], s - {a[0]});
      assert a == [a[0]] + a[1..] && b == [b[0]] + b[1..];
    }
  }

  lemma {:induction false} TailLists(a: seq<int>, s: set<int>)
    requires Lists(a, s) && a != []
    ensures Lists(a[1..], s - {a[0]})
  {
    forall x ensures x in a[1..] <==> x in s - {a[0]} {
      if x in a[1..] {
        var i :| 0 <= i < |a[1..]| && a[1..][i] == x;
        assert a[i + 1] == x;
      }
      if x in s - {a[0]} {
        var i :| 0 <= i < |a| && a[i] == x;
        assert a[1..][i - 1] == x;
      }
    }
  }

  /** Inserts into an ascending list. */
  function Insert(s: seq<int>, x: int): seq<int> {
    if s == [] || x < s[0] then [x] + s else if x == s[0] then s else [s[0]] + Insert(s[1..], x)
  }

  lemma {:induction false} InsertLists(s: seq<int>, x: int)
    requires Ascending(s)
    ensures Ascending(Insert(s, x)) && forall y :: y in Insert(s, x) <==> y in s || y == x
  {
    if s != [] && x > s[0] {
      InsertLists(s[1..], x);
      var r := Insert(s[1..], x);
      forall j | 0 <= j < |r| ensures s[0] < r[j] {
        assert r[j] in r;
      }
    }
  }

  /** Gathers a set in whatever order it is iterated, and sorts. */
  method SortedIntSet(s: set<int>) returns (out: seq<int>)
    ensures out == Sorted(s)
  {
    out := [];
    var rest := s;
    while rest != {}
      invariant rest <= s && Lists(out, s - rest)
      decreases |rest|
    {
      EmptyOrNot(rest);
      var x :| x in rest;
      InsertLists(out, x);
      out := Insert(out, x);
      rest := rest - {x};
    }
    ListingIsUnique(out, Sorted(s), s);
  }

  lemma {:induction false} SubsetSize(a: set<int>, b: set<int>)
    requires a <= b
    ensures |a| <= |b|
    ensures |a| == |b| ==> a == b
  {
    assert b == a + (b - a);
    if a != b {
      assert b - a != {};
    }
  }

  function SatSub(a: int, b: int): (r: nat)
    ensures r == 0 || r == a - b
  {
    if b >= a then 0 else a - b
  }

  function Min(a: nat, b: nat): nat { if a < b then a else b }

  ghost function SetOf(s: seq<int>): set<int> { set x | x in s }

  lemma {:induction false} SetOfPrefix(s: seq<int>, k: nat)
    requires k < |s|
    ensures SetOf(s[..k + 1]) == SetOf(s[..k]) + {s[k]}
  {
    PrefixSnoc(s, k);
  }

  lemma {:induction false} SetOfListed(s: seq<int>, keep: set<int>)
    requires Lists(s, keep)
    ensures SetOf(s) == keep
  {
    forall x ensures x in SetOf(s) <==> x in keep {
    }
  }

  lemma {:induction false} SetOfSorted(s: set<int>)
    ensures SetOf(Sorted(s)) == s
  {
  }

  // ---- topping up under a budget ----

  /** Adds elements in order, those already there costing nothing, until the budget is
      spent. */
  ghost function TopUp(base: set<int>, cands: seq<int>, budget: nat): set<int>
    decreases |cands|
  {
    if cands == [] || budget == 0 then base
    else if cands[0] in base then TopUp(base, cands[1..], budget)
    else TopUp(base + {cands[0]}, cands[1..], budget - 1)
  }

  method AddUnder(base: set<int>, cands: seq<int>, budget: nat) returns (out: set<int>, remaining: nat)
    ensures out == TopUp(base, cands, budget) && base <= out && |out| + remaining == |base| + budget
  {
    out, remaining := base, budget;
    assert cands[0..] == cands;
    for k := 0 to |cands|
      invariant base <= out && |out| + remaining == |base| + budget
      invariant TopUp(out, cands[k..], remaining) == TopUp(base, cands, budget)
    {
      if remaining == 0 {
        break;
      }
      assert cands[k..][1..] == cands[k + 1..];
      if cands[k] !in out {
        out := out + {cands[k]};
        remaining := remaining - 1;
      }
    }
  }

  lemma {:induction false} SetOfUnfolds(cands: seq<int>)
    requires cands != []
    ensures SetOf(cands) == {cands[0]} + SetOf(cands[1..])
  {
  }

  lemma {:induction false} OneMore<T>(x: T, rest: set<T>, base: set<T>)
    requires x !in base
    ensures |({x} + rest) - base| == 1 + |rest - (base + {x})|
  {
    assert ({x} + rest) - base == {x} + (rest - (base + {x}));
  }

  lemma {:induction false} NoneMore(x: int, rest: set<int>, base: set<int>)
    requires x in base
    ensures |({x} + rest) - base| == |rest - base|
  {
    assert ({x} + rest) - base == rest - base;
  }

  lemma {:induction false} TopUpWithin(base: set<int>, cands: seq<int>, budget: nat)
    ensures base <= TopUp(base, cands, budget) && TopUp(base, cands, budget) <= base + SetOf(cands)
    decreases |cands|
  {
    if cands != [] && budget > 0 {
      SetOfUnfolds(cands);
      if cands[0] in base {
        TopUpWithin(base, cands[1..], budget);
      } else {
        TopUpWithin(base + {cands[0]}, cands[1..], budget - 1);
      }
    }
  }

  lemma {:induction false} TopUpSize(base: set<int>, cands: seq<int>, budget: nat)
    ensures |TopUp(base, cands, budget)| == |base| + Min(budget, |SetOf(cands) - base|)
    decreases |cands|
  {
    if cands == [] {
      assert SetOf(cands) - base == {};
    } else if budget > 0 {
      var x, rest := cands[0], cands[1..];
      SetOfUnfolds(cands);
      if x in base {
        NoneMore(x, SetOf(rest), base);
        TopUpSize(base, rest, budget);
      } else {
        OneMore(x, SetOf(rest), base);
        TopUpSize(base + {x}, rest, budget - 1);
      }
    }
  }

  /** From an ascending list, the lowest elements are the ones added. */
  lemma {:induction false} TopUpTakesLowest(base: set<int>, cands: seq<int>, budget: nat, x: int, y: int)
    requires Ascending(cands) && x in TopUp(base, cands, budget) && x !in base
    requires y in cands && y !in TopUp(base, cands, budget)
    ensures x < y
    decreases |cands|
  {
    var first, rest := cands[0], cands[1..];
    var base' := if first in base then base else base + {first};
    var budget' := if first in base then budget else budget - 1;
    TopUpWithin(base', rest, budget');
    assert TopUp(base, cands, budget) == TopUp(base', rest, budget');
    assert y != first;
    var i :| 0 <= i < |cands| && cands[i] == y;
    assert rest[i - 1] == y;
    if x != first {
      TopUpTakesLowest(base', rest, budget', x, y);
    }
  }
}
