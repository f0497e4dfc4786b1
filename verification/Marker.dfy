/** Retrieval markers: internal/ccr/marker.go. */
module Marker {

  const HASH_LEN: nat := 24

  predicate IsHex(c: char) { '0' <= c <= '9' || 'a' <= c <= 'f' }

  /** A retrieval hash: 24 lowercase hex digits. */
  predicate IsHash(h: string) {
    |h| == HASH_LEN && forall i :: 0 <= i < |h| ==> IsHex(h[i])
  }

  function MarkerFor(hash: string): string { "<<ccr:" + hash + ">>" }

  /** Length of the marker opening at p, 0 when there is none. */
  function OpeningAt(s: string, p: nat): nat {
    if p + 6 <= |s| && s[p..p + 6] == "<<ccr:" then 6
    else if p + 5 <= |s| && s[p..p + 5] == "hash=" then 5
    else 0
  }

  /** The text names h at p: either surface opens there and h follows. */
  predicate NamesAt(s: string, p: nat, h: string) {
    var k := OpeningAt(s, p);
    k > 0 && p + k + HASH_LEN <= |s| && h == s[p + k..p + k + HASH_LEN] && IsHash(h)
  }

  function MatchAt(s: string, p: nat): (m: string)
    ensures m == "" <==> forall h :: !NamesAt(s, p, h)
    ensures m != "" ==> NamesAt(s, p, m)
  {
    var k := OpeningAt(s, p);
    if k > 0 && p + k + HASH_LEN <= |s| && IsHash(s[p + k..p + k + HASH_LEN]) then
      assert NamesAt(s, p, s[p + k..p + k + HASH_LEN]);
      s[p + k..p + k + HASH_LEN]
    else ""
  }

  /** The library's FindAll: leftmost matches, each search resuming past the last. */
  function FindAll(s: string, i: nat): (ms: seq<string>)
    decreases |s| - i
  {
    if i >= |s| then []
    else if MatchAt(s, i) == "" then FindAll(s, i + 1)
    else [MatchAt(s, i)] + FindAll(s, i + OpeningAt(s, i) + HASH_LEN)
  }

  /** Each element where it first appears. */
  function FirstOccurrences(ms: seq<string>): (out: seq<string>) {
    if ms == [] then []
    else
      var out := FirstOccurrences(ms[..|ms| - 1]);
      if ms[|ms| - 1] in out then out else out + [ms[|ms| - 1]]
  }

  /** Every retrieval hash the text names; HashesInExactly says what that means. */
  function Hashes(s: string): seq<string> { FirstOccurrences(FindAll(s, 0)) }

  method HashesIn(s: string) returns (out: seq<string>)
    ensures out == Hashes(s)
  {
    var ms := FindAll(s, 0);
    out := [];
    var seen: set<string> := {};
    for i := 0 to |ms|
      invariant out == FirstOccurrences(ms[..i])
      invariant forall h :: h in seen <==> h in out
    {
      assert ms[..i + 1][..i] == ms[..i];
      if ms[i] !in seen {
        seen := seen + {ms[i]};
        out := out + [ms[i]];
      }
    }
    assert ms[..|ms|] == ms;
  }

  /** Two distinct occurrences never overlap: a match holds no opening inside. */
  lemma {:induction false} NoOverlap(s: string, p: nat, q: nat, g: string, h: string)
    requires NamesAt(s, p, g) && NamesAt(s, q, h) && p < q
    ensures p + OpeningAt(s, p) + HASH_LEN <= q
  {
    var k := OpeningAt(s, p);
    assert s[q] == '<' || s[q] == 'h' by {
      assert s[q] == s[q..q + OpeningAt(s, q)][0];
    }
    assert forall i :: p <= i < p + k ==> s[i] == s[p..p + k][i - p];
    forall i | p + k <= i < p + k + HASH_LEN ensures s[i] != '<' && s[i] != 'h' {
      assert s[i] == g[i - p - k];
    }
    assert s[q + 1] == s[q..q + OpeningAt(s, q)][1];
  }

  lemma {:induction false} FindAllExactly(s: string, i: nat, h: string)
    ensures h in FindAll(s, i) <==> exists p: nat :: p >= i && NamesAt(s, p, h)
    decreases |s| - i
  {
    if i >= |s| {
    } else if MatchAt(s, i) == "" {
      FindAllExactly(s, i + 1, h);
    } else {
      var m := MatchAt(s, i);
      var next := i + OpeningAt(s, i) + HASH_LEN;
      FindAllExactly(s, next, h);
      forall p: nat | p > i && NamesAt(s, p, h) ensures p >= next {
        NoOverlap(s, i, p, m, h);
      }
    }
  }

  lemma {:induction false} FirstOccurrencesContract(ms: seq<string>)
    ensures forall h :: h in FirstOccurrences(ms) <==> h in ms
    ensures forall i, j :: 0 <= i < j < |FirstOccurrences(ms)| ==> FirstOccurrences(ms)[i] != FirstOccurrences(ms)[j]
  {
    if ms != [] {
      FirstOccurrencesContract(ms[..|ms| - 1]);
      assert ms == ms[..|ms| - 1] + [ms[|ms| - 1]];
    }
  }

  /** Of two elements kept, the one kept first occurs before the other does. */
  lemma {:induction false} FirstOccurrencesOrder(ms: seq<string>, a: nat, b: nat) returns (p: nat)
    requires a < b < |FirstOccurrences(ms)|
    ensures p < |ms| && ms[p] == FirstOccurrences(ms)[a]
    ensures forall q :: 0 <= q <= p ==> ms[q] != FirstOccurrences(ms)[b]
  {
    var n := |ms| - 1;
    var init := FirstOccurrences(ms[..n]);
    FirstOccurrencesContract(ms[..n]);
    if b < |init| {
      p := FirstOccurrencesOrder(ms[..n], a, b);
      assert forall q :: 0 <= q <= p ==> ms[..n][q] == ms[q];
    } else {
      assert init[a] in ms[..n];
      p :| 0 <= p < n && ms[..n][p] == init[a];
      forall q | 0 <= q <= p ensures ms[q] != ms[n] {
        assert ms[..n][q] in ms[..n];
      }
    }
  }

  /** HashesIn is exactly the set of hashes the text names anywhere, each once;
      the leftmost, non-overlapping search misses none of them. */
  lemma {:induction false} HashesInExactly(s: string, h: string)
    ensures h in Hashes(s) <==> exists p: nat :: NamesAt(s, p, h)
    ensures forall i, j :: 0 <= i < j < |Hashes(s)| ==> Hashes(s)[i] != Hashes(s)[j]
  {
    FirstOccurrencesContract(FindAll(s, 0));
    FindAllExactly(s, 0, h);
  }

  /** s holds t from position p on. */
  predicate HoldsAt(s: string, p: nat, t: string) { p + |t| <= |s| && s[p..p + |t|] == t }

  lemma {:induction false} NamesAtIs(s: string, p: nat, h: string)
    ensures NamesAt(s, p, h) <==> IsHash(h) && (HoldsAt(s, p, "<<ccr:" + h) || HoldsAt(s, p, "hash=" + h))
  {
    var a, b := "<<ccr:", "hash=";
    if HoldsAt(s, p, a + h) {
      assert s[p..p + 6] == s[p..p + |a + h|][..6] == a;
      assert s[p + 6..p + |a + h|] == s[p..p + |a + h|][6..] == h;
    }
    if HoldsAt(s, p, b + h) {
      assert s[p..p + 5] == s[p..p + |b + h|][..5] == b;
      assert s[p + 5..p + |b + h|] == s[p..p + |b + h|][5..] == h;
      assert s[p] == b[0];
      assert p + 6 <= |s| ==> s[p..p + 6][0] == s[p];
    }
    if NamesAt(s, p, h) {
      var k := OpeningAt(s, p);
      assert s[p..p + k + HASH_LEN] == s[p..p + k] + s[p + k..p + k + HASH_LEN];
    }
  }

  /** The hashes named are the 24 lowercase hex digits that follow "<<ccr:" or "hash="
      anywhere in the text. */
  lemma {:induction false} HashesAre(s: string, h: string)
    ensures h in Hashes(s)
       <==> |h| == 24 && (forall c :: c in h ==> '0' <= c <= '9' || 'a' <= c <= 'f')
            && exists p: nat :: HoldsAt(s, p, "<<ccr:" + h) || HoldsAt(s, p, "hash=" + h)
  {
    HashesInExactly(s, h);
    forall p: nat ensures NamesAt(s, p, h) <==>
      IsHash(h) && (HoldsAt(s, p, "<<ccr:" + h) || HoldsAt(s, p, "hash=" + h))
    {
      NamesAtIs(s, p, h);
    }
    assert (forall c :: c in h ==> IsHex(c)) <==> forall i :: 0 <= i < |h| ==> IsHex(h[i]);
  }

  /** A canonical marker is always found again, whatever text precedes it. */
  lemma {:induction false} MarkerIsNamed(before: string, hash: string)
    requires IsHash(hash)
    ensures hash in Hashes(before + MarkerFor(hash))
  {
    var s := before + MarkerFor(hash);
    var p := |before|;
    assert s[p..p + 6] == "<<ccr:";
    assert s[p + 6..p + 6 + HASH_LEN] == hash;
    assert NamesAt(s, p, hash);
    HashesInExactly(s, hash);
  }

  /** No name reaches across a newline. */
  lemma {:induction false} NameHasNoNewline(s: string, p: nat, h: string, q: nat)
    requires NamesAt(s, p, h) && p <= q < p + OpeningAt(s, p) + HASH_LEN
    ensures s[q] != '\n'
  {
    var k := OpeningAt(s, p);
    if q < p + k {
      assert s[q] == s[p..p + k][q - p];
    } else {
      assert s[q] == h[q - p - k];
    }
  }

  lemma {:induction false} NameWithin(a: string, b: string, p: nat, h: string)
    requires NamesAt(a + b, p, h) && p + OpeningAt(a + b, p) + HASH_LEN <= |a|
    ensures NamesAt(a, p, h)
  {
    var k := OpeningAt(a + b, p);
    assert (a + b)[p..p + k] == a[p..p + k];
    assert (a + b)[p + k..p + k + HASH_LEN] == a[p + k..p + k + HASH_LEN];
    assert p + 6 <= |a| ==> (a + b)[p..p + 6] == a[p..p + 6];
  }

  /** A lone marker names its own hash only. */
  lemma {:induction false} MarkerNames(before: string, hash: string, p: nat, h: string)
    requires IsHash(hash) && NamesAt(before + MarkerFor(hash), p, h) && p >= |before|
    ensures h == hash
  {
    var s := before + MarkerFor(hash);
    var b := |before|;
    assert s[b..b + 6] == "<<ccr:" && s[b + 6..b + 6 + HASH_LEN] == hash;
    assert NamesAt(s, b, hash);
    if p > b {
      NoOverlap(s, b, p, hash, h);
    }
  }

  /** A name that starts before a newline ends before it. */
  lemma {:induction false} NameBeforeNewline(a: string, b: string, p: nat, h: string)
    requires NamesAt(a + ['\n'] + b, p, h) && p <= |a|
    ensures NamesAt(a, p, h)
  {
    var s := a + ['\n'] + b;
    if p + OpeningAt(s, p) + HASH_LEN > |a| {
      assert s[|a|] == '\n';
      NameHasNoNewline(s, p, h, |a|);
    }
    assert s == a + (['\n'] + b);
    NameWithin(a, ['\n'] + b, p, h);
  }

  /** A marker on a line of its own adds its hash to the ones named and no other. */
  lemma {:induction false} MarkedNames(before: string, hash: string, h: string)
    requires IsHash(hash) && h in Hashes(before + ['\n'] + MarkerFor(hash))
    ensures h == hash || h in Hashes(before)
  {
    var s := before + ['\n'] + MarkerFor(hash);
    HashesInExactly(s, h);
    var p: nat :| NamesAt(s, p, h);
    if p > |before| {
      MarkerNames(before + ['\n'], hash, p, h);
    } else {
      NameBeforeNewline(before, MarkerFor(hash), p, h);
      HashesInExactly(before, h);
    }
  }

  /** What the start of a text names, the text names. */
  lemma {:induction false} NamesGrow(a: string, b: string, h: string)
    requires h in Hashes(a)
    ensures h in Hashes(a + b)
  {
    HashesInExactly(a, h);
    HashesInExactly(a + b, h);
    var p: nat :| NamesAt(a, p, h);
    var k := OpeningAt(a, p);
    assert (a + b)[p..p + k] == a[p..p + k];
    assert (a + b)[p + k..p + k + HASH_LEN] == a[p + k..p + k + HASH_LEN];
    assert p + 6 <= |a| ==> (a + b)[p..p + 6] == a[p..p + 6];
    assert NamesAt(a + b, p, h);
  }
}
