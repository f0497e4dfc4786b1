/** Substrings, replacement and decimal numerals, as Go's strings and strconv have them.

    Replacement is ReplaceAll, left to right and without overlaps; numerals are
    those of Itoa, FormatUint and ParseUint. */
module Text {

  import opened Common

  // ---- substrings ----

  predicate OccursAt(s: string, p: nat, sub: string) {
    p + |sub| <= |s| && s[p..p + |sub|] == sub
  }

  lemma {:induction false} CharOf(s: string, p: nat, sub: string, k: nat)
    requires OccursAt(s, p, sub) && k < |sub|
    ensures s[p + k] == sub[k]
  {
    assert s[p..p + |sub|][k] == s[p + k];
  }

  /** The character at position q, when q lies within the occurrence. */
  lemma {:induction false} CharWithin(s: string, p: nat, sub: string, q: nat)
    requires OccursAt(s, p, sub)
    ensures p <= q < p + |sub| ==> s[q] == sub[q - p]
  {
    assert p <= q < p + |sub| ==> s[p..p + |sub|][q - p] == s[q];
  }

  predicate Contains(s: string, sub: string) {
    sub <= s || (s != [] && Contains(s[1..], sub))
  }

  lemma {:induction false} ContainsIffOccurs(s: string, sub: string)
    ensures Contains(s, sub) <==> exists p: nat :: OccursAt(s, p, sub)
  {
    if sub <= s {
      assert OccursAt(s, 0, sub);
    } else if s != [] {
      ContainsIffOccurs(s[1..], sub);
      if Contains(s[1..], sub) {
        var p: nat :| OccursAt(s[1..], p, sub);
        assert s[1..][p..p + |sub|] == s[p + 1..p + 1 + |sub|];
        assert OccursAt(s, p + 1, sub);
      } else {
        forall p: nat | OccursAt(s, p, sub) ensures p > 0 ==> OccursAt(s[1..], p - 1, sub) {
          assert p > 0 ==> s[1..][p - 1..p - 1 + |sub|] == s[p..p + |sub|];
        }
      }
    }
  }

  lemma {:induction false} ContainsFront(s: string, front: string, rest: string)
    ensures Contains(s, front + rest) ==> Contains(s, front)
  {
    ContainsIffOccurs(s, front + rest);
    ContainsIffOccurs(s, front);
    forall p: nat | OccursAt(s, p, front + rest) ensures OccursAt(s, p, front) {
      assert s[p..p + |front|] == s[p..p + |front + rest|][..|front|];
    }
  }

  /** strings.ReplaceAll: leftmost occurrences, never overlapping. */
  function ReplaceAll(s: string, from: string, to: string): string
    requires |from| > 0
  {
    if s == [] then []
    else if from <= s then to + ReplaceAll(s[|from|..], from, to)
    else [s[0]] + ReplaceAll(s[1..], from, to)
  }

  /** Nothing to replace, nothing replaced. */
  lemma {:induction false} ReplaceAbsent(s: string, from: string, to: string)
    requires |from| > 0 && !Contains(s, from)
    ensures ReplaceAll(s, from, to) == s
  {
    if s != [] {
      ReplaceAbsent(s[1..], from, to);
      assert s == [s[0]] + s[1..];
    }
  }

  /** No occurrence of sub reaches across the seam between a and b. */
  ghost predicate CleanSeam(a: string, b: string, sub: string) {
    forall p: nat :: p < |a| < p + |sub| ==> !OccursAt(a + b, p, sub)
  }

  /** Replacement distributes over a clean seam. */
  lemma {:induction false} ReplaceAcrossSeam(a: string, b: string, from: string, to: string)
    requires |from| > 0 && CleanSeam(a, b, from)
    ensures ReplaceAll(a + b, from, to) == ReplaceAll(a, from, to) + ReplaceAll(b, from, to)
    decreases |a|
  {
    if a == [] {
      assert a + b == b;
    } else if from <= a + b {
      assert OccursAt(a + b, 0, from);
      assert |from| <= |a|;
      assert from <= a by {
        assert a[..|from|] == (a + b)[..|from|];
      }
      var rest := a[|from|..];
      assert (a + b)[|from|..] == rest + b;
      SeamShifts(a, b, from, |from|);
      ReplaceAcrossSeam(rest, b, from, to);
      SeqAssoc(to, ReplaceAll(rest, from, to), ReplaceAll(b, from, to));
    } else {
      assert (a + b)[1..] == a[1..] + b && (a + b)[0] == a[0];
      SeamShifts(a, b, from, 1);
      ReplaceAcrossSeam(a[1..], b, from, to);
      SeqAssoc([a[0]], ReplaceAll(a[1..], from, to), ReplaceAll(b, from, to));
    }
  }

  lemma {:induction false} FourParts(a: string, b: string, c: string, d: string)
    ensures a + (b + (c + d)) == (a + (b + c)) + d
    ensures a + (b + (c + d)) == ((a + b) + c) + d
  {
  }

  lemma {:induction false} SeamShifts(a: string, b: string, sub: string, k: nat)
    requires CleanSeam(a, b, sub) && k <= |a|
    ensures CleanSeam(a[k..], b, sub)
  {
    var c := a[k..] + b;
    assert c == (a + b)[k..];
    forall p: nat | OccursAt(c, p, sub) ensures OccursAt(a + b, p + k, sub) {
      assert c[p..p + |sub|] == (a + b)[p + k..p + k + |sub|];
    }
  }

  // ---- counting a character ----

  function Count(s: string, c: char): nat {
    if s == [] then 0 else (if s[0] == c then 1 else 0) + Count(s[1..], c)
  }

  lemma {:induction false} CountAppend(a: string, b: string, c: char)
    ensures Count(a + b, c) == Count(a, c) + Count(b, c)
  {
    if a == [] {
      assert a + b == b;
    } else {
      assert (a + b)[1..] == a[1..] + b;
      CountAppend(a[1..], b, c);
    }
  }

  lemma {:induction false} CountNone(s: string, c: char)
    requires c !in s
    ensures Count(s, c) == 0
  {
    if s != [] {
      CountNone(s[1..], c);
    }
  }

  lemma {:induction false} CountSome(s: string, c: char)
    requires c in s
    ensures Count(s, c) > 0
  {
    if s[0] != c {
      CountSome(s[1..], c);
    }
  }

  /** Replacing text free of c by text with c in it adds c's exactly when it happens. */
  lemma {:induction false} ReplaceAdds(s: string, from: string, to: string, c: char)
    requires |from| > 0 && c !in from && c in to
    ensures Count(ReplaceAll(s, from, to), c) >= Count(s, c)
    ensures Contains(s, from) ==> Count(ReplaceAll(s, from, to), c) > Count(s, c)
  {
    if s == [] {
    } else if from <= s {
      ReplaceAdds(s[|from|..], from, to, c);
      assert s == from + s[|from|..];
      CountAppend(from, s[|from|..], c);
      CountAppend(to, ReplaceAll(s[|from|..], from, to), c);
      CountNone(from, c);
      CountSome(to, c);
    } else {
      ReplaceAdds(s[1..], from, to, c);
      assert ([s[0]] + ReplaceAll(s[1..], from, to))[1..] == ReplaceAll(s[1..], from, to);
    }
  }

  // ---- white space ----

  /** White space as unicode.IsSpace has it. */
  predicate IsWhite(c: char) {
    || '\t' <= c <= '\r' || c == ' ' || c == '\U{85}' || c == '\U{A0}' || c == '\U{1680}'
    || '\U{2000}' <= c <= '\U{200A}' || c == '\U{2028}' || c == '\U{2029}' || c == '\U{202F}'
    || c == '\U{205F}' || c == '\U{3000}'
  }

  // ---- decimal numerals ----

  predicate IsDigit(c: char) { '0' <= c <= '9' }

  predicate AllDigits(s: string) { forall i :: 0 <= i < |s| ==> IsDigit(s[i]) }

  function Digit(d: nat): (c: char)
    requires d < 10
    ensures IsDigit(c) && (c as int) - ('0' as int) == d
  {
    ('0' as int + d) as char
  }

  /** strconv.Itoa and FormatUint. */
  function Itoa(n: nat): (s: string)
    ensures |s| > 0 && AllDigits(s)
  {
    if n < 10 then [Digit(n)] else Itoa(n / 10) + [Digit(n % 10)]
  }

  /** The number a run of digits denotes. */
  function Atoi(s: string): nat
    requires AllDigits(s)
  {
    if s == [] then 0 else 10 * Atoi(s[..|s| - 1]) + (s[|s| - 1] as int - '0' as int)
  }

  lemma {:induction false} AtoiItoa(n: nat)
    ensures Atoi(Itoa(n)) == n
  {
    if n < 10 {
      assert Itoa(n)[..0] == [];
    } else {
      AtoiItoa(n / 10);
      assert Itoa(n)[..|Itoa(n)| - 1] == Itoa(n / 10);
    }
  }

  lemma {:induction false} ItoaInjective(m: nat, n: nat)
    requires Itoa(m) == Itoa(n)
    ensures m == n
  {
    AtoiItoa(m);
    AtoiItoa(n);
  }

  // ---- splitting and joining ----

  /** strings.Split on one character. */
  function SplitOn(s: string, c: char): (r: seq<string>)
    ensures |r| > 0
  {
    if s == [] then [[]]
    else
      var r := SplitOn(s[1..], c);
      if s[0] == c then [[]] + r else [[s[0]] + r[0]] + r[1..]
  }

  lemma {:induction false} SplitFirst(a: string, c: char, rest: string)
    requires c !in a
    ensures SplitOn(a + ([c] + rest), c) == [a] + SplitOn(rest, c)
  {
    var s := a + ([c] + rest);
    if a == [] {
      assert s == [c] + rest && s[1..] == rest;
    } else {
      assert s[1..] == a[1..] + ([c] + rest) && s[0] == a[0];
      SplitFirst(a[1..], c, rest);
      assert [a[0]] + a[1..] == a;
    }
  }

  lemma {:induction false} SplitWhole(a: string, c: char)
    requires c !in a
    ensures SplitOn(a, c) == [a]
  {
    if a != [] {
      SplitWhole(a[1..], c);
      assert [a[0]] + a[1..] == a;
    }
  }

  /** strings.Join with one character. */
  function JoinOn(parts: seq<string>, c: char): string {
    if parts == [] then [] else if |parts| == 1 then parts[0] else parts[0] + ([c] + JoinOn(parts[1..], c))
  }

  lemma {:induction false} SplitJoin(parts: seq<string>, c: char)
    requires parts != [] && forall i :: 0 <= i < |parts| ==> c !in parts[i]
    ensures SplitOn(JoinOn(parts, c), c) == parts
  {
    if |parts| == 1 {
      SplitWhole(parts[0], c);
    } else {
      SplitFirst(parts[0], c, JoinOn(parts[1..], c));
      SplitJoin(parts[1..], c);
    }
  }
}
