/** Turns of many sessions in one order, and what one session makes of its own. */
module Interleaving {

  import opened Common

  /** One request: the session it names, and what it brings. */
  datatype Asked<K, I> = Asked(key: K, input: I)

  /** What a table of live sessions holds for a key; one it does not know starts fresh. */
  ghost function At<K, S>(live: map<K, S>, key: K, start: S): S { if key in live then live[key] else start }

  /** A request gives its session one turn; any other session stays as it is or goes. */
  ghost predicate Serves<K, S, I>(turn: (S, I) -> S, start: S, a: map<K, S>, r: Asked<K, I>, b: map<K, S>) {
    && r.key in b && b[r.key] == turn(At(a, r.key, start), r.input)
    && forall k :: k in b && k != r.key ==> k in a && b[k] == a[k]
  }

  /** The live sessions before, between and after the requests. */
  ghost predicate IsRun<K, S, I>(turn: (S, I) -> S, start: S, rs: seq<Asked<K, I>>, live: seq<map<K, S>>) {
    && |live| == |rs| + 1 && live[0] == map[]
    && forall i :: 0 <= i < |rs| ==> Serves(turn, start, live[i], rs[i], live[i + 1])
  }

  /** Turns taken one after the other. */
  ghost function Fold<S, I>(turn: (S, I) -> S, s: S, turns: seq<I>): S {
    if turns == [] then s else turn(Fold(turn, s, turns[..|turns| - 1]), turns[|turns| - 1])
  }

  lemma {:induction false} FoldSnoc<S, I>(turn: (S, I) -> S, s: S, turns: seq<I>, t: I)
    ensures Fold(turn, s, turns + [t]) == turn(Fold(turn, s, turns), t)
  {
    assert (turns + [t])[..|turns|] == turns;
  }

  /** A session's turns once the request is served: evicted, it starts over. */
  ghost function NextOwn<K, S, I>(live: map<K, S>, r: Asked<K, I>, key: K, turns: seq<I>): seq<I> {
    if r.key != key then turns else if key in live then turns + [r.input] else [r.input]
  }

  /** A session's turns among the first n requests since it was last admitted. */
  ghost function OwnTurns<K, S, I>(live: seq<map<K, S>>, rs: seq<Asked<K, I>>, key: K, n: nat): seq<I>
    requires n <= |rs| <= |live|
  {
    if n == 0 then [] else NextOwn(live[n - 1], rs[n - 1], key, OwnTurns(live, rs, key, n - 1))
  }

  lemma {:induction false} ServesAlone<K, S, I>(turn: (S, I) -> S, start: S, a: map<K, S>, r: Asked<K, I>, b: map<K, S>,
                                                key: K, turns: seq<I>)
    requires Serves(turn, start, a, r, b) && key in b && (key in a ==> a[key] == Fold(turn, start, turns))
    ensures b[key] == Fold(turn, start, NextOwn(a, r, key, turns))
  {
    if r.key == key {
      FoldSnoc(turn, start, if key in a then turns else [], r.input);
      assert [] + [r.input] == [r.input];
    }
  }

  /** A live session is what its own turns make of a fresh one. */
  lemma {:induction false} SessionsRunAlone<K, S, I>(turn: (S, I) -> S, start: S, rs: seq<Asked<K, I>>,
                                                     live: seq<map<K, S>>,
                                                     key: K, n: nat)
    requires IsRun(turn, start, rs, live) && n <= |rs| && key in live[n]
    ensures live[n][key] == Fold(turn, start, OwnTurns(live, rs, key, n))
  {
    assert n > 0 && Serves(turn, start, live[n - 1], rs[n - 1], live[n - 1 + 1]);
    if key in live[n - 1] {
      SessionsRunAlone(turn, start, rs, live, key, n - 1);
    }
    ServesAlone(turn, start, live[n - 1], rs[n - 1], live[n], key, OwnTurns(live, rs, key, n - 1));
  }

  /** The session stays live from request a to request b. */
  ghost predicate Stays<K, S>(live: seq<map<K, S>>, key: K, a: nat, b: nat)
    requires b < |live|
  {
    forall i: nat :: a < i <= b ==> key in live[i]
  }

  /** So between the two it only gains turns. */
  lemma {:induction false} OwnTurnsGrow<K, S, I>(live: seq<map<K, S>>, rs: seq<Asked<K, I>>, key: K, a: nat, b: nat)
    returns (more: seq<I>)
    requires a <= b < |rs| <= |live| && Stays(live, key, a, b)
    ensures OwnTurns(live, rs, key, b + 1) == OwnTurns(live, rs, key, a + 1) + more
    decreases b
  {
    var early := OwnTurns(live, rs, key, a + 1);
    if a == b {
      more := [];
      assert early == early + more;
    } else {
      var first := OwnTurnsGrow(live, rs, key, a, b - 1);
      var last := if rs[b].key == key then [rs[b].input] else [];
      SeqAssoc(early, first, last);
      more := first + last;
    }
  }

  /** Turn k of a run, and the session it starts from. */
  ghost predicate IsTurn<S, I>(turn: (S, I) -> S, start: S, turns: seq<I>, k: nat, s: S, input: I) {
    k < |turns| && turns[k] == input && s == Fold(turn, start, turns[..k])
  }

  /** A request is the last of its session's turns so far. */
  lemma {:induction false} RequestIsTurn<K, S, I>(turn: (S, I) -> S, start: S, rs: seq<Asked<K, I>>, live: seq<map<K,
                                                  S>>, n: nat)
    requires IsRun(turn, start, rs, live) && n < |rs|
    ensures var turns := OwnTurns(live, rs, rs[n].key, n + 1);
            turns != [] && IsTurn(turn, start, turns, |turns| - 1, At(live[n], rs[n].key, start), rs[n].input)
  {
    var key := rs[n].key;
    var before, turns := OwnTurns(live, rs, key, n), OwnTurns(live, rs, key, n + 1);
    if key in live[n] {
      SessionsRunAlone(turn, start, rs, live, key, n);
      assert turns[..|turns| - 1] == before;
    } else {
      assert turns[..|turns| - 1] == [];
    }
  }

  /** While a session stays live, two of its requests are two turns of one run, in order. */
  lemma {:induction false} RequestsAreTurns<K, S, I>(turn: (S, I) -> S, start: S, rs: seq<Asked<K, I>>,
                                                     live: seq<map<K, S>>,
                                                     key: K, a: nat, b: nat)
    returns (n: nat, m: nat)
    requires IsRun(turn, start, rs, live) && a <= b < |rs| && rs[a].key == key && rs[b].key == key
    requires Stays(live, key, a, b)
    ensures var turns := OwnTurns(live, rs, key, b + 1);
            && n <= m && IsTurn(turn, start, turns, n, At(live[a], key, start), rs[a].input)
            && IsTurn(turn, start, turns, m, At(live[b], key, start), rs[b].input)
  {
    var early, turns := OwnTurns(live, rs, key, a + 1), OwnTurns(live, rs, key, b + 1);
    RequestIsTurn(turn, start, rs, live, a);
    RequestIsTurn(turn, start, rs, live, b);
    var more := OwnTurnsGrow(live, rs, key, a, b);
    n, m := |early| - 1, |turns| - 1;
    assert turns[..n] == early[..n];
  }

  // ---- a table that is large enough ----

  /** The sessions the first n requests name. */
  ghost function KeysIn<K, I>(rs: seq<Asked<K, I>>, n: nat): set<K>
    requires n <= |rs|
  {
    set i | 0 <= i < n :: rs[i].key
  }

  /** All of one session's turns among the first n requests. */
  ghost function TurnsOf<K, I>(rs: seq<Asked<K, I>>, key: K, n: nat): seq<I>
    requires n <= |rs|
  {
    if n == 0 then [] else TurnsOf(rs, key, n - 1) + if rs[n - 1].key == key then [rs[n - 1].input] else []
  }

  lemma {:induction false} KeysGrow<K, I>(rs: seq<Asked<K, I>>, n: nat)
    requires 0 < n <= |rs|
    ensures KeysIn(rs, n) == KeysIn(rs, n - 1) + {rs[n - 1].key}
    ensures |KeysIn(rs, n - 1)| <= |KeysIn(rs, n)|
    ensures rs[n - 1].key !in KeysIn(rs, n - 1) ==> |KeysIn(rs, n)| == |KeysIn(rs, n - 1)| + 1
  {
    var keys, k := KeysIn(rs, n - 1), rs[n - 1].key;
    assert KeysIn(rs, n) == keys + {k};
    if k in keys {
      assert keys + {k} == keys;
    }
  }

  lemma {:induction false} FewerNamed<K, I>(rs: seq<Asked<K, I>>, i: nat, n: nat)
    requires i <= n <= |rs|
    ensures |KeysIn(rs, i)| <= |KeysIn(rs, n)|
  {
    if i < n {
      FewerNamed(rs, i, n - 1);
      KeysGrow(rs, n);
    }
  }

  lemma {:induction false} NoTurnsWithoutKey<K, I>(rs: seq<Asked<K, I>>, key: K, n: nat)
    requires n <= |rs| && key !in KeysIn(rs, n)
    ensures TurnsOf(rs, key, n) == []
  {
    if n > 0 {
      KeysGrow(rs, n);
      NoTurnsWithoutKey(rs, key, n - 1);
    }
  }

  /** A session that is live whenever it was named never starts over. */
  lemma {:induction false} NeverStartsOver<K, S, I>(live: seq<map<K, S>>, rs: seq<Asked<K, I>>, key: K, n: nat)
    requires n <= |rs| <= |live| && forall i: nat :: i < n ==> (key in live[i] <==> key in KeysIn(rs, i))
    ensures OwnTurns(live, rs, key, n) == TurnsOf(rs, key, n)
  {
    if n > 0 {
      NeverStartsOver(live, rs, key, n - 1);
      if key !in KeysIn(rs, n - 1) {
        NoTurnsWithoutKey(rs, key, n - 1);
      }
    }
  }
}
