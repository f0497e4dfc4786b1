/** What more than one module needs. */
module Common {

  datatype Option<+T> = None | Some(value: T)

  ghost predicate Unique<T>(s: seq<T>) {
    forall i, j :: 0 <= i < j < |s| ==> s[i] != s[j]
  }

  lemma {:induction false} UniqueCount<T>(s: seq<T>, keys: set<T>)
    requires Unique(s) && forall k :: k in s <==> k in keys
    ensures |s| == |keys|
  {
    if s == [] {
      assert keys == {};
    } else {
      var k := s[|s| - 1];
      var t := s[..|s| - 1];
      assert s == t + [k];
      assert k !in t;
      UniqueCount(t, keys - {k});
    }
  }

  lemma {:induction false} SeqAssoc<T>(a: seq<T>, b: seq<T>, c: seq<T>)
    ensures (a + b) + c == a + (b + c)
  {
  }

  lemma {:induction false} TakeOneMore<T>(before: seq<T>, s: seq<T>, n: nat)
    requires 0 < n <= |s|
    ensures (before + s[..n - 1]) + [s[n - 1]] == before + s[..n]
  {
  }

  lemma {:induction false} PrefixSnoc<T>(s: seq<T>, i: nat)
    requires i < |s|
    ensures s[..i] + [s[i]] == s[..i + 1]
  {
  }
}
