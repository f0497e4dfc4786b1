/** Putting protected regions back: RestoreTags of internal/tagprotect/tagprotect.go. */
module TagRestore {

  // RestoreTags runs ReplaceAll once per placeholder, over a text that already holds
  // restored originals. The results here say what that does for any texts between
  // the placeholders, and exactly when it is the inverse of protecting.

  import opened Common
  import opened Text

  const DEFAULT_PREFIX := "{{HEADROOM_TAG_"
  const FALLBACK_PREFIX := "{{HEADROOM_TAG_FALLBACK_a4f1c7e2_"
  const SUFFIX := "}}"

  function SaltedPrefix(salt: nat): string { DEFAULT_PREFIX + Itoa(salt) + "_" }

  predicate Brace(c: char) { c == '{' || c == '}' || c == '<' || c == '>' }

  /** Two opening braces and then no brace or angle bracket. */
  ghost predicate GoodPrefix(p: string) {
    |p| >= 3 && p[0] == '{' && p[1] == '{' && forall i :: 2 <= i < |p| ==> !Brace(p[i])
  }

  lemma {:induction false} AllPrefixesAreGood(salt: nat)
    ensures GoodPrefix(DEFAULT_PREFIX) && GoodPrefix(FALLBACK_PREFIX) && GoodPrefix(SaltedPrefix(salt))
  {
    var p := SaltedPrefix(salt);
    forall i | 2 <= i < |p| ensures !Brace(p[i]) {
      if i < |DEFAULT_PREFIX| {
        assert p[i] == DEFAULT_PREFIX[i];
      } else if i < |DEFAULT_PREFIX| + |Itoa(salt)| {
        assert p[i] == Itoa(salt)[i - |DEFAULT_PREFIX|];
      }
    }
  }

  function Placeholder(prefix: string, i: nat): string { prefix + Itoa(i) + SUFFIX }

  /** A placeholder as its characters: the braces sit at its two ends only. */
  ghost predicate Shaped(ph: string) {
    && |ph| >= 5 && ph[0] == '{' && ph[1] == '{' && ph[|ph| - 2] == '}' && ph[|ph| - 1] == '}'
    && forall i :: 2 <= i < |ph| - 2 ==> !Brace(ph[i])
  }

  lemma {:induction false} PlaceholderShaped(prefix: string, i: nat)
    requires GoodPrefix(prefix)
    ensures Shaped(Placeholder(prefix, i))
  {
    var ph := Placeholder(prefix, i);
    forall k | 2 <= k < |ph| - 2 ensures !Brace(ph[k]) {
      if k < |prefix| {
        assert ph[k] == prefix[k];
      } else {
        assert ph[k] == Itoa(i)[k - |prefix|];
      }
    }
  }

  lemma {:induction false} PlaceholdersDiffer(prefix: string, i: nat, j: nat)
    requires Placeholder(prefix, i) == Placeholder(prefix, j)
    ensures i == j
  {
    var a, b := Placeholder(prefix, i), Placeholder(prefix, j);
    assert a[|prefix|..|a| - 2] == Itoa(i);
    assert b[|prefix|..|b| - 2] == Itoa(j);
    ItoaInjective(i, j);
  }

  // ---- where a placeholder can occur ----

  /** Placeholders that start at different places do not meet. */
  lemma {:induction false} StartsApart(s: string, p: nat, ph: string, q: nat, other: string)
    requires Shaped(ph) && Shaped(other) && OccursAt(s, p, ph) && OccursAt(s, q, other)
    ensures p < q ==> p + |ph| <= q
  {
    CharWithin(s, q, other, q);
    CharWithin(s, q, other, q + 1);
    CharWithin(s, p, ph, q);
    CharWithin(s, p, ph, q + 1);
  }

  lemma {:induction false} NotShorter(s: string, p: nat, ph: string, other: string)
    requires Shaped(ph) && Shaped(other) && OccursAt(s, p, ph) && OccursAt(s, p, other)
    ensures |ph| >= |other|
  {
    CharWithin(s, p, ph, p + |ph| - 2);
    CharWithin(s, p, other, p + |ph| - 2);
  }

  /** An occurrence of one placeholder meeting another covers it exactly. */
  lemma {:induction false} MeetingPlaceholders(s: string, p: nat, ph: string, q: nat, other: string)
    requires Shaped(ph) && Shaped(other) && OccursAt(s, p, ph) && OccursAt(s, q, other)
    ensures p < q + |other| && q < p + |ph| ==> p == q && ph == other
  {
    StartsApart(s, p, ph, q, other);
    StartsApart(s, q, other, p, ph);
    if p == q {
      NotShorter(s, p, ph, other);
      NotShorter(s, p, other, ph);
    }
  }

  /** The seam before a placeholder, or after one, is clean for every placeholder. */
  lemma {:induction false} SeamAtPlaceholder(a: string, ph: string, b: string, sub: string)
    requires Shaped(ph) && Shaped(sub)
    ensures CleanSeam(a, ph + b, sub) && CleanSeam(ph, b, sub)
  {
    var s := a + (ph + b);
    assert s[|a|..|a| + |ph|] == ph;
    forall p: nat | OccursAt(s, p, sub) ensures !(p < |a| < p + |sub|) {
      MeetingPlaceholders(s, p, sub, |a|, ph);
    }
    var t := ph + b;
    assert t[0..|ph|] == ph;
    forall p: nat | OccursAt(t, p, sub) ensures !(p < |ph| < p + |sub|) {
      MeetingPlaceholders(t, p, sub, 0, ph);
    }
  }

  ghost predicate Region(orig: string) { |orig| >= 2 && orig[0] == '<' && orig[|orig| - 1] == '>' }

  /** No placeholder has an angle bracket in it. */
  lemma {:induction false} NoAngleWithin(s: string, p: nat, sub: string, q: nat)
    requires Shaped(sub) && OccursAt(s, p, sub) && q < |s| && (s[q] == '<' || s[q] == '>')
    ensures !(p <= q < p + |sub|)
  {
    CharWithin(s, p, sub, q);
  }

  /** The seams of a tag region are clean: it begins and ends with angle brackets. */
  lemma {:induction false} SeamAtRegion(a: string, orig: string, b: string, sub: string)
    requires Region(orig) && Shaped(sub)
    ensures CleanSeam(a, orig + b, sub) && CleanSeam(orig, b, sub)
  {
    var s := a + (orig + b);
    forall p: nat | OccursAt(s, p, sub) ensures !(p < |a| < p + |sub|) {
      NoAngleWithin(s, p, sub, |a|);
    }
    var t := orig + b;
    forall p: nat | OccursAt(t, p, sub) ensures !(p < |orig| < p + |sub|) {
      NoAngleWithin(t, p, sub, |orig| - 1);
    }
  }

  // ---- texts with fillings between gaps ----

  /** gaps[0] fills[0] gaps[1] ... fills[n-1] gaps[n] */
  function Weave(gaps: seq<string>, fills: seq<string>): string
    requires |gaps| == |fills| + 1
  {
    if fills == [] then gaps[0] else gaps[0] + (fills[0] + Weave(gaps[1..], fills[1..]))
  }

  ghost function ReplaceEach(ts: seq<string>, from: string, to: string): (r: seq<string>)
    requires |from| > 0
    ensures |r| == |ts|
  {
    seq(|ts|, i requires 0 <= i < |ts| => ReplaceAll(ts[i], from, to))
  }

  /** A filling whose two seams are clean for every placeholder. */
  ghost predicate Solid(f: string) { Shaped(f) || Region(f) }

  lemma {:induction false} SolidSeams(a: string, f: string, b: string, sub: string)
    requires Solid(f) && Shaped(sub)
    ensures CleanSeam(a, f + b, sub) && CleanSeam(f, b, sub)
  {
    if Shaped(f) {
      SeamAtPlaceholder(a, f, b, sub);
    } else {
      SeamAtRegion(a, f, b, sub);
    }
  }

  /** Replacing a placeholder works gap by gap and filling by filling. */
  lemma {:induction false} ReplaceInWeave(gaps: seq<string>, fills: seq<string>, ph: string, to: string)
    requires |gaps| == |fills| + 1 && Shaped(ph) && forall i :: 0 <= i < |fills| ==> Solid(fills[i])
    ensures ReplaceAll(Weave(gaps, fills), ph, to) == Weave(ReplaceEach(gaps, ph, to), ReplaceEach(fills, ph, to))
    decreases |fills|
  {
    if fills != [] {
      var rest := Weave(gaps[1..], fills[1..]);
      SolidSeams(gaps[0], fills[0], rest, ph);
      ReplaceAcrossSeam(gaps[0], fills[0] + rest, ph, to);
      ReplaceAcrossSeam(fills[0], rest, ph, to);
      ReplaceInWeave(gaps[1..], fills[1..], ph, to);
      assert ReplaceEach(gaps, ph, to)[1..] == ReplaceEach(gaps[1..], ph, to);
      assert ReplaceEach(fills, ph, to)[1..] == ReplaceEach(fills[1..], ph, to);
    }
  }

  // ---- restoring ----

  datatype Block = Block(placeholder: string, original: string)

  /** The text once the first n blocks have been put back. */
  ghost function Restored(text: string, blocks: seq<Block>, n: nat): string
    requires n <= |blocks| && forall i :: 0 <= i < |blocks| ==> |blocks[i].placeholder| > 0
  {
    if n == 0 then text
    else ReplaceAll(Restored(text, blocks, n - 1), blocks[n - 1].placeholder, blocks[n - 1].original)
  }

  /** A placeholder that is missing is skipped; its original is not injected. */
  method RestoreTags(text: string, blocks: seq<Block>) returns (working: string)
    requires forall i :: 0 <= i < |blocks| ==> |blocks[i].placeholder| > 0
    ensures working == Restored(text, blocks, |blocks|)
  {
    working := text;
    for n := 0 to |blocks|
      invariant working == Restored(text, blocks, n)
    {
      var b := blocks[n];
      if Contains(working, b.placeholder) {
        working := ReplaceAll(working, b.placeholder, b.original);
        continue;
      }
      ReplaceAbsent(working, b.placeholder, b.original);
    }
  }

  /** What protecting hands out: numbered placeholders and tag regions. */
  ghost predicate Issued(prefix: string, blocks: seq<Block>) {
    && GoodPrefix(prefix)
    && forall i :: 0 <= i < |blocks| ==> blocks[i].placeholder == Placeholder(prefix, i) && Region(blocks[i].original)
  }

  lemma {:induction false} IssuedShapes(prefix: string, blocks: seq<Block>)
    requires Issued(prefix, blocks)
    ensures forall i :: 0 <= i < |blocks| ==> Shaped(blocks[i].placeholder)
  {
    forall i | 0 <= i < |blocks| ensures Shaped(blocks[i].placeholder) {
      PlaceholderShaped(prefix, i);
    }
  }

  /** A text after blocks lo, lo + 1, ..., hi - 1 were put back in it. */
  ghost function Evolved(s: string, blocks: seq<Block>, lo: nat, hi: nat): string
    requires lo <= hi <= |blocks| && forall i :: 0 <= i < |blocks| ==> |blocks[i].placeholder| > 0
    decreases hi
  {
    if lo == hi then s
    else ReplaceAll(Evolved(s, blocks, lo, hi - 1), blocks[hi - 1].placeholder, blocks[hi - 1].original)
  }

  /** Filling i after n blocks were put back: its original from block i on. */
  ghost function FillAfter(blocks: seq<Block>, i: nat, n: nat): string
    requires i < |blocks| && n <= |blocks| && forall i :: 0 <= i < |blocks| ==> |blocks[i].placeholder| > 0
  {
    if n <= i then blocks[i].placeholder else Evolved(blocks[i].original, blocks, i + 1, n)
  }

  ghost function FillsAfter(blocks: seq<Block>, n: nat): (r: seq<string>)
    requires n <= |blocks| && forall i :: 0 <= i < |blocks| ==> |blocks[i].placeholder| > 0
    ensures |r| == |blocks|
  {
    seq(|blocks|, i requires 0 <= i < |blocks| => FillAfter(blocks, i, n))
  }

  ghost function GapsAfter(gaps: seq<string>, blocks: seq<Block>, n: nat): (r: seq<string>)
    requires n <= |blocks| && forall i :: 0 <= i < |blocks| ==> |blocks[i].placeholder| > 0
    ensures |r| == |gaps|
  {
    seq(|gaps|, i requires 0 <= i < |gaps| => Evolved(gaps[i], blocks, 0, n))
  }

  /** Replacing a placeholder in a region leaves its angle brackets at its ends. */
  lemma {:induction false} RegionStays(orig: string, ph: string, to: string)
    requires Region(orig) && Shaped(ph) && Region(to)
    ensures Region(ReplaceAll(orig, ph, to))
  {
    assert orig[0] == '<' && !(ph <= orig);
    var tail := orig[1..];
    EndsWithAngle(tail, ph, to);
    assert ReplaceAll(orig, ph, to) == [orig[0]] + ReplaceAll(tail, ph, to);
  }

  lemma {:induction false} GoesOnAfter(s: string, ph: string)
    requires |s| > 0 && s[|s| - 1] == '>' && Shaped(ph) && ph <= s
    ensures |s| > |ph|
  {
    CharWithin(s, 0, ph, |ph| - 1);
  }

  lemma {:induction false} EndsWithAngle(s: string, ph: string, to: string)
    requires |s| > 0 && s[|s| - 1] == '>' && Shaped(ph) && Region(to)
    ensures var r := ReplaceAll(s, ph, to); |r| > 0 && r[|r| - 1] == '>'
  {
    if ph <= s {
      GoesOnAfter(s, ph);
      EndsWithAngle(s[|ph|..], ph, to);
    } else if |s| > 1 {
      EndsWithAngle(s[1..], ph, to);
    }
  }

  lemma {:induction false} EvolvedRegion(orig: string, prefix: string, blocks: seq<Block>, lo: nat, hi: nat)
    requires Issued(prefix, blocks) && Region(orig) && lo <= hi <= |blocks|
    requires forall i :: 0 <= i < |blocks| ==> Shaped(blocks[i].placeholder)
    ensures Region(Evolved(orig, blocks, lo, hi))
    decreases hi
  {
    if lo < hi {
      EvolvedRegion(orig, prefix, blocks, lo, hi - 1);
      RegionStays(Evolved(orig, blocks, lo, hi - 1), blocks[hi - 1].placeholder, blocks[hi - 1].original);
    }
  }

  lemma {:induction false} OtherPlaceholderStays(ph: string, other: string, to: string)
    requires Shaped(ph) && Shaped(other)
    ensures ph != other ==> ReplaceAll(other, ph, to) == other
  {
    ContainsIffOccurs(other, ph);
    assert OccursAt(other, 0, other);
    forall p: nat | OccursAt(other, p, ph) ensures ph == other {
      MeetingPlaceholders(other, p, ph, 0, other);
    }
    if !Contains(other, ph) {
      ReplaceAbsent(other, ph, to);
    }
  }

  lemma {:induction false} OwnPlaceholderGoes(ph: string, to: string)
    requires |ph| > 0
    ensures ReplaceAll(ph, ph, to) == to
  {
    assert ph <= ph && ph[|ph|..] == [];
    assert ReplaceAll([], ph, to) == [];
  }

  /** One restore step, filling by filling. */
  lemma {:induction false} FillStep(prefix: string, blocks: seq<Block>, i: nat, n: nat)
    requires Issued(prefix, blocks) && i < |blocks| && n < |blocks|
    requires forall i :: 0 <= i < |blocks| ==> Shaped(blocks[i].placeholder)
    ensures ReplaceAll(FillAfter(blocks, i, n), blocks[n].placeholder, blocks[n].original)
         == FillAfter(blocks, i, n + 1)
  {
    if n < i {
      if blocks[n].placeholder == blocks[i].placeholder {
        PlaceholdersDiffer(prefix, n, i);
      }
      OtherPlaceholderStays(blocks[n].placeholder, blocks[i].placeholder, blocks[n].original);
    } else if n == i {
      OwnPlaceholderGoes(blocks[n].placeholder, blocks[n].original);
    }
  }

  lemma {:induction false} FillsAreSolid(prefix: string, blocks: seq<Block>, n: nat)
    requires Issued(prefix, blocks) && n <= |blocks|
    requires forall i :: 0 <= i < |blocks| ==> Shaped(blocks[i].placeholder)
    ensures forall i :: 0 <= i < |blocks| ==> Solid(FillsAfter(blocks, n)[i])
  {
    forall i | 0 <= i < |blocks| ensures Solid(FillsAfter(blocks, n)[i]) {
      if n > i {
        EvolvedRegion(blocks[i].original, prefix, blocks, i + 1, n);
      }
    }
  }

  /** What restoring does, whatever stands between the placeholders: each gap takes
      every block in turn, each original the blocks after its own. */
  lemma {:induction false} RestoreComputes(prefix: string, gaps: seq<string>, blocks: seq<Block>, n: nat)
    requires Issued(prefix, blocks) && |gaps| == |blocks| + 1 && n <= |blocks|
    requires forall i :: 0 <= i < |blocks| ==> Shaped(blocks[i].placeholder)
    ensures Restored(Weave(gaps, FillsAfter(blocks, 0)), blocks, n)
         == Weave(GapsAfter(gaps, blocks, n), FillsAfter(blocks, n))
  {
    if n == 0 {
      assert GapsAfter(gaps, blocks, 0) == gaps;
    } else {
      RestoreComputes(prefix, gaps, blocks, n - 1);
      FillsAreSolid(prefix, blocks, n - 1);
      var ph, to := blocks[n - 1].placeholder, blocks[n - 1].original;
      ReplaceInWeave(GapsAfter(gaps, blocks, n - 1), FillsAfter(blocks, n - 1), ph, to);
      assert ReplaceEach(GapsAfter(gaps, blocks, n - 1), ph, to) == GapsAfter(gaps, blocks, n);
      forall i | 0 <= i < |blocks|
        ensures ReplaceEach(FillsAfter(blocks, n - 1), ph, to)[i] == FillsAfter(blocks, n)[i]
      {
        FillStep(prefix, blocks, i, n - 1);
      }
      assert ReplaceEach(FillsAfter(blocks, n - 1), ph, to) == FillsAfter(blocks, n);
    }
  }

  // ---- exactly when restoring is the inverse ----

  ghost predicate Avoids(s: string, blocks: seq<Block>, lo: nat, hi: nat) {
    forall k :: lo <= k < hi && k < |blocks| ==> !Contains(s, blocks[k].placeholder)
  }

  /** A text is untouched by later blocks exactly when it names none of them, and
      otherwise gains an opening angle bracket. */
  lemma {:induction false} EvolvedIffAvoids(s: string, prefix: string, blocks: seq<Block>, lo: nat, hi: nat)
    requires Issued(prefix, blocks) && lo <= hi <= |blocks|
    requires forall i :: 0 <= i < |blocks| ==> Shaped(blocks[i].placeholder)
    ensures Avoids(s, blocks, lo, hi) ==> Evolved(s, blocks, lo, hi) == s
    ensures Count(Evolved(s, blocks, lo, hi), '<') >= Count(s, '<')
    ensures !Avoids(s, blocks, lo, hi) ==> Count(Evolved(s, blocks, lo, hi), '<') > Count(s, '<')
    decreases hi
  {
    if lo < hi {
      var before := Evolved(s, blocks, lo, hi - 1);
      var ph, to := blocks[hi - 1].placeholder, blocks[hi - 1].original;
      EvolvedIffAvoids(s, prefix, blocks, lo, hi - 1);
      assert forall i :: 0 <= i < |ph| ==> ph[i] != '<';
      ReplaceAdds(before, ph, to, '<');
      if !Contains(before, ph) {
        ReplaceAbsent(before, ph, to);
      }
    }
  }

  lemma {:induction false} CountWeave(gaps: seq<string>, fills: seq<string>, gaps': seq<string>, fills': seq<string>,
                                      c: char)
    requires |gaps| == |fills| + 1 && |gaps'| == |gaps| && |fills'| == |fills|
    requires forall i :: 0 <= i < |gaps| ==> Count(gaps[i], c) <= Count(gaps'[i], c)
    requires forall i :: 0 <= i < |fills| ==> Count(fills[i], c) <= Count(fills'[i], c)
    ensures Count(Weave(gaps, fills), c) <= Count(Weave(gaps', fills'), c)
    ensures Count(Weave(gaps, fills), c) == Count(Weave(gaps', fills'), c) ==>
      && (forall i :: 0 <= i < |gaps| ==> Count(gaps[i], c) == Count(gaps'[i], c))
      && (forall i :: 0 <= i < |fills| ==> Count(fills[i], c) == Count(fills'[i], c))
    decreases |fills|
  {
    if fills != [] {
      var rest, rest' := Weave(gaps[1..], fills[1..]), Weave(gaps'[1..], fills'[1..]);
      CountWeave(gaps[1..], fills[1..], gaps'[1..], fills'[1..], c);
      CountAppend(gaps[0], fills[0] + rest, c);
      CountAppend(fills[0], rest, c);
      CountAppend(gaps'[0], fills'[0] + rest', c);
      CountAppend(fills'[0], rest', c);
      if Count(Weave(gaps, fills), c) == Count(Weave(gaps', fills'), c) {
        forall i | 0 <= i < |gaps| ensures Count(gaps[i], c) == Count(gaps'[i], c) {
          assert i > 0 ==> gaps[i] == gaps[1..][i - 1] && gaps'[i] == gaps'[1..][i - 1];
        }
        forall i | 0 <= i < |fills| ensures Count(fills[i], c) == Count(fills'[i], c) {
          assert i > 0 ==> fills[i] == fills[1..][i - 1] && fills'[i] == fills'[1..][i - 1];
        }
      }
    }
  }

  ghost function Placeholders(blocks: seq<Block>): (r: seq<string>)
    ensures |r| == |blocks|
  {
    seq(|blocks|, i requires 0 <= i < |blocks| => blocks[i].placeholder)
  }

  ghost function Originals(blocks: seq<Block>): (r: seq<string>)
    ensures |r| == |blocks|
  {
    seq(|blocks|, i requires 0 <= i < |blocks| => blocks[i].original)
  }

  ghost predicate GapsClean(gaps: seq<string>, blocks: seq<Block>) {
    forall i :: 0 <= i < |gaps| ==> Avoids(gaps[i], blocks, 0, |blocks|)
  }

  ghost predicate OriginalClean(blocks: seq<Block>, i: nat)
    requires i < |blocks|
  {
    Avoids(blocks[i].original, blocks, i + 1, |blocks|)
  }

  ghost predicate OriginalsClean(blocks: seq<Block>) {
    forall i :: 0 <= i < |blocks| ==> OriginalClean(blocks, i)
  }

  /** No gap holds a placeholder, and no original holds a later one. */
  ghost predicate Unambiguous(gaps: seq<string>, blocks: seq<Block>) {
    GapsClean(gaps, blocks) && OriginalsClean(blocks)
  }

  /** Protect, rewrite the text between placeholders to anything, restore: the result
      is those texts around the original regions if and only if no rewritten text
      holds a placeholder and no region holds a later one. */
  lemma {:induction false} RestoreInvertsIff(prefix: string, gaps: seq<string>, blocks: seq<Block>)
    requires Issued(prefix, blocks) && |gaps| == |blocks| + 1
    requires forall i :: 0 <= i < |blocks| ==> |blocks[i].placeholder| > 0
    ensures Restored(Weave(gaps, Placeholders(blocks)), blocks, |blocks|) == Weave(gaps, Originals(blocks))
       <==> Unambiguous(gaps, blocks)
  {
    var n := |blocks|;
    IssuedShapes(prefix, blocks);
    assert FillsAfter(blocks, 0) == Placeholders(blocks);
    RestoreComputes(prefix, gaps, blocks, n);
    GapsEvolve(prefix, gaps, blocks);
    OriginalsEvolve(prefix, blocks);
    CountWeave(gaps, Originals(blocks), GapsAfter(gaps, blocks, n), FillsAfter(blocks, n), '<');
  }

  /** Each text of evolved is the one of ts, or has more opening angle brackets. */
  ghost predicate Gains(ts: seq<string>, evolved: seq<string>, clean: bool) {
    && |ts| == |evolved|
    && (forall i :: 0 <= i < |ts| ==> Count(ts[i], '<') <= Count(evolved[i], '<'))
    && (clean ==> evolved == ts)
    && (!clean ==> exists i :: 0 <= i < |ts| && Count(ts[i], '<') != Count(evolved[i], '<'))
  }

  lemma {:induction false} GapsEvolve(prefix: string, gaps: seq<string>, blocks: seq<Block>)
    requires Issued(prefix, blocks) && forall i :: 0 <= i < |blocks| ==> Shaped(blocks[i].placeholder)
    ensures Gains(gaps, GapsAfter(gaps, blocks, |blocks|), GapsClean(gaps, blocks))
  {
    var r := GapsAfter(gaps, blocks, |blocks|);
    forall i | 0 <= i < |gaps|
      ensures Count(gaps[i], '<') <= Count(r[i], '<')
      ensures Avoids(gaps[i], blocks, 0, |blocks|) ==> r[i] == gaps[i]
      ensures !Avoids(gaps[i], blocks, 0, |blocks|) ==> Count(gaps[i], '<') < Count(r[i], '<')
    {
      EvolvedIffAvoids(gaps[i], prefix, blocks, 0, |blocks|);
    }
  }

  lemma {:induction false} OriginalEvolves(prefix: string, blocks: seq<Block>, i: nat)
    requires Issued(prefix, blocks) && i < |blocks| && forall i :: 0 <= i < |blocks| ==> Shaped(blocks[i].placeholder)
    ensures var o, r := blocks[i].original, FillAfter(blocks, i, |blocks|);
            && Count(o, '<') <= Count(r, '<') && (OriginalClean(blocks, i) ==> r == o)
            && (!OriginalClean(blocks, i) ==> Count(o, '<') < Count(r, '<'))
  {
    EvolvedIffAvoids(blocks[i].original, prefix, blocks, i + 1, |blocks|);
  }

  lemma {:induction false} OriginalsEvolve(prefix: string, blocks: seq<Block>)
    requires Issued(prefix, blocks) && forall i :: 0 <= i < |blocks| ==> Shaped(blocks[i].placeholder)
    ensures Gains(Originals(blocks), FillsAfter(blocks, |blocks|), OriginalsClean(blocks))
  {
    var o, r := Originals(blocks), FillsAfter(blocks, |blocks|);
    forall i | 0 <= i < |blocks|
      ensures Count(o[i], '<') <= Count(r[i], '<')
      ensures OriginalClean(blocks, i) ==> r[i] == o[i]
      ensures !OriginalClean(blocks, i) ==> Count(o[i], '<') < Count(r[i], '<')
    {
      OriginalEvolves(prefix, blocks, i);
    }
  }

  /** The promise as documented: it suffices that neither the rewritten texts nor
      the regions hold the chosen prefix. */
  lemma {:induction false} PrefixFreeRoundTrip(prefix: string, gaps: seq<string>, blocks: seq<Block>)
    requires Issued(prefix, blocks) && |gaps| == |blocks| + 1
    requires forall i :: 0 <= i < |blocks| ==> |blocks[i].placeholder| > 0
    requires forall i :: 0 <= i < |gaps| ==> !Contains(gaps[i], prefix)
    requires forall i :: 0 <= i < |blocks| ==> !Contains(blocks[i].original, prefix)
    ensures Restored(Weave(gaps, Placeholders(blocks)), blocks, |blocks|) == Weave(gaps, Originals(blocks))
  {
    forall s, k | 0 <= k < |blocks| && !Contains(s, prefix) ensures !Contains(s, blocks[k].placeholder) {
      ContainsFront(s, prefix, Itoa(k) + SUFFIX);
      SeqAssoc(prefix, Itoa(k), SUFFIX);
    }
    RestoreInvertsIff(prefix, gaps, blocks);
  }
}
