/** Byte-range surgery on a request body: internal/livezone/splice.go. */
module Splice {

  // A Go byte slice is a `string` here, one `char` standing for one byte.

  type Bytes = string

  datatype Replacement = Replacement(start: int, end: int, repl: Bytes)

  /** One rewritten span: start and end index the input, newLen measures the output. */
  datatype Range = Range(start: int, end: int, newLen: nat)

  // ---- sort.SliceStable by ascending start ----

  function InsertByStart(r: Replacement, s: seq<Replacement>): seq<Replacement> {
    if s == [] || r.start <= s[0].start then [r] + s else [s[0]] + InsertByStart(r, s[1..])
  }

  /** The library's stable sort; StableSortContract states what makes it one. */
  function SortByStart(s: seq<Replacement>): seq<Replacement> {
    if s == [] then [] else InsertByStart(s[0], SortByStart(s[1..]))
  }

  ghost predicate Ascending(s: seq<Replacement>) {
    forall i, j :: 0 <= i < j < |s| ==> s[i].start <= s[j].start
  }

  function WithStart(s: seq<Replacement>, k: int): seq<Replacement> {
    if s == [] then [] else IfStart(s[0], k) + WithStart(s[1..], k)
  }

  lemma {:induction false} InsertIsPermutation(r: Replacement, s: seq<Replacement>)
    ensures multiset(InsertByStart(r, s)) == multiset{r} + multiset(s)
  {
    if s == [] || r.start <= s[0].start {
    } else {
      InsertIsPermutation(r, s[1..]);
      assert s == [s[0]] + s[1..];
    }
  }

  lemma {:induction false} InsertMembers(r: Replacement, s: seq<Replacement>)
    ensures forall x :: x in InsertByStart(r, s) <==> x == r || x in s
  {
    if s == [] || r.start <= s[0].start {
    } else {
      InsertMembers(r, s[1..]);
      assert forall x :: x in s <==> x == s[0] || x in s[1..];
    }
  }

  lemma {:induction false} InsertKeepsOrder(r: Replacement, s: seq<Replacement>)
    requires Ascending(s)
    ensures Ascending(InsertByStart(r, s))
  {
    if s == [] || r.start <= s[0].start {
    } else {
      var t := InsertByStart(r, s[1..]);
      InsertKeepsOrder(r, s[1..]);
      InsertMembers(r, s[1..]);
      forall j | 0 <= j < |t| ensures s[0].start <= t[j].start {
        assert t[j] in t;
      }
    }
  }

  function IfStart(r: Replacement, k: int): seq<Replacement> {
    if r.start == k then [r] else []
  }

  lemma {:induction false} WithStartCons(r: Replacement, s: seq<Replacement>, k: int)
    ensures WithStart([r] + s, k) == IfStart(r, k) + WithStart(s, k)
  {
    assert ([r] + s)[1..] == s;
  }

  lemma {:induction false} InsertIsStable(r: Replacement, s: seq<Replacement>, k: int)
    ensures WithStart(InsertByStart(r, s), k) == IfStart(r, k) + WithStart(s, k)
  {
    if s == [] || r.start <= s[0].start {
      WithStartCons(r, s, k);
    } else {
      InsertIsStable(r, s[1..], k);
      WithStartCons(s[0], InsertByStart(r, s[1..]), k);
      if s[0].start == k {
        assert IfStart(r, k) == [];
      }
    }
  }

  /** Sorted, a permutation, and equal starts keep their input order. */
  lemma {:induction false} StableSortContract(s: seq<Replacement>, k: int)
    ensures Ascending(SortByStart(s))
    ensures multiset(SortByStart(s)) == multiset(s)
    ensures WithStart(SortByStart(s), k) == WithStart(s, k)
  {
    if s != [] {
      StableSortContract(s[1..], k);
      var t := SortByStart(s[1..]);
      InsertKeepsOrder(s[0], t);
      InsertIsPermutation(s[0], t);
      InsertIsStable(s[0], t, k);
      assert s == [s[0]] + s[1..];
    }
  }

  lemma {:induction false} SortMembers(s: seq<Replacement>)
    ensures forall x :: x in SortByStart(s) <==> x in s
  {
    StableSortContract(s, 0);
    assert forall x :: x in s <==> x in multiset(s);
    assert forall x :: x in SortByStart(s) <==> x in multiset(SortByStart(s));
  }

  // ---- the specification of the splice ----

  predicate Refused(r: Replacement, n: nat, cursor: int) {
    r.start < cursor || r.end < r.start || r.end > n
  }

  /** The replacements that survive the guard when the walk stands at cursor. */
  function Accept(n: nat, cursor: int, s: seq<Replacement>): seq<Replacement>
    decreases |s|
  {
    if s == [] then []
    else if Refused(s[0], n, cursor) then Accept(n, cursor, s[1..])
    else [s[0]] + Accept(n, s[0].end, s[1..])
  }

  /** Ascending, pairwise disjoint and inside [cursor, n). */
  ghost predicate Disjoint(acc: seq<Replacement>, cursor: int, n: nat) {
    && (forall i :: 0 <= i < |acc| ==> cursor <= acc[i].start <= acc[i].end <= n)
    && (forall i, j :: 0 <= i < j < |acc| ==> acc[i].end <= acc[j].start)
  }

  lemma {:induction false} AcceptIsDisjoint(n: nat, cursor: int, s: seq<Replacement>)
    requires 0 <= cursor
    ensures Disjoint(Accept(n, cursor, s), cursor, n)
    decreases |s|
  {
    if s != [] {
      if Refused(s[0], n, cursor) {
        AcceptIsDisjoint(n, cursor, s[1..]);
      } else {
        AcceptIsDisjoint(n, s[0].end, s[1..]);
      }
    }
  }

  /** The text from cursor on, with every range of acc exchanged for its replacement. */
  ghost function Spliced(orig: Bytes, cursor: nat, acc: seq<Replacement>): Bytes
    requires cursor <= |orig| && Disjoint(acc, cursor, |orig|)
    decreases |acc|
  {
    if acc == [] then orig[cursor..]
    else
      assert Disjoint(acc[1..], acc[0].end, |orig|);
      orig[cursor..acc[0].start] + acc[0].repl + Spliced(orig, acc[0].end, acc[1..])
  }

  function RangesOf(acc: seq<Replacement>): seq<Range> {
    if acc == [] then []
    else [Range(acc[0].start, acc[0].end, |acc[0].repl|)] + RangesOf(acc[1..])
  }

  ghost function Accepted(orig: Bytes, reps: seq<Replacement>): (acc: seq<Replacement>)
    ensures Disjoint(acc, 0, |orig|)
  {
    AcceptIsDisjoint(|orig|, 0, SortByStart(reps));
    Accept(|orig|, 0, SortByStart(reps))
  }

  lemma {:induction false} SplicedStep(orig: Bytes, cursor: nat, r: Replacement, rest: seq<Replacement>)
    requires cursor <= r.start <= r.end <= |orig| && Disjoint(rest, r.end, |orig|)
    ensures Disjoint([r] + rest, cursor, |orig|)
    ensures Spliced(orig, cursor, [r] + rest) == orig[cursor..r.start] + r.repl + Spliced(orig, r.end, rest)
    ensures RangesOf([r] + rest) == [Range(r.start, r.end, |r.repl|)] + RangesOf(rest)
  {
    assert ([r] + rest)[1..] == rest;
  }

  /** What is written so far, completed by what the rest of the list will write. */
  ghost predicate Midway(orig: Bytes, cursor: nat, rest: seq<Replacement>, out: Bytes, ranges: seq<Range>,
                         whole: seq<Replacement>) {
    && cursor <= |orig| && Disjoint(whole, 0, |orig|)
    && var acc := Accept(|orig|, cursor, rest);
       && Disjoint(acc, cursor, |orig|)
       && out + Spliced(orig, cursor, acc) == Spliced(orig, 0, whole)
       && ranges + RangesOf(acc) == RangesOf(whole)
       && (ranges == [] ==> out == [] && cursor == 0)
  }

  lemma {:induction false} MidwayAccepts(orig: Bytes, cursor: nat, rest: seq<Replacement>, out: Bytes,
                                         ranges: seq<Range>, whole: seq<Replacement>)
    requires rest != [] && Midway(orig, cursor, rest, out, ranges, whole) && !Refused(rest[0], |orig|, cursor)
    ensures var r := rest[0];
            Midway(orig, r.end, rest[1..], out + orig[cursor..r.start] + r.repl,
                   ranges + [Range(r.start, r.end, |r.repl|)], whole)
  {
    var r := rest[0];
    var acc := Accept(|orig|, r.end, rest[1..]);
    AcceptIsDisjoint(|orig|, r.end, rest[1..]);
    SplicedStep(orig, cursor, r, acc);
  }

  /** Splices reps into orig and reports the rewritten ranges. */
  method ApplyReplacements(orig: Bytes, reps: seq<Replacement>) returns (out: Bytes, ranges: seq<Range>)
    ensures out == Spliced(orig, 0, Accepted(orig, reps))
    ensures ranges == RangesOf(Accepted(orig, reps))
  {
    if |reps| == 0 {
      return orig, [];
    }
    var sorted := SortByStart(reps);
    ghost var whole := Accepted(orig, reps);
    out, ranges := [], [];
    var cursor: nat := 0;
    for i := 0 to |sorted|
      invariant Midway(orig, cursor, sorted[i..], out, ranges, whole)
    {
      var r := sorted[i];
      assert sorted[i..][0] == r && sorted[i..][1..] == sorted[i + 1..];
      if r.start < cursor || r.end < r.start || r.end > |orig| {
        continue;
      }
      MidwayAccepts(orig, cursor, sorted[i..], out, ranges, whole);
      out := out + orig[cursor..r.start];
      out := out + r.repl;
      ranges := ranges + [Range(r.start, r.end, |r.repl|)];
      cursor := r.end;
    }
    out := out + orig[cursor..];
    if |ranges| == 0 {
      out := orig;
    }
  }

  // ---- what the splice promises ----

  /** Nothing is dropped without cause: a refused replacement is malformed, or
      starts inside an accepted range that sorts before it. */
  lemma {:induction false} DroppedOnlyForCause(n: nat, cursor: nat, s: seq<Replacement>, r: Replacement)
    requires Ascending(s) && r in s && r.start >= cursor && 0 <= r.start <= r.end <= n
    ensures r in Accept(n, cursor, s)
      || exists a :: a in Accept(n, cursor, s) && a.start <= r.start < a.end
    decreases |s|
  {
    if s[0] == r {
    } else {
      assert r in s[1..];
      if Refused(s[0], n, cursor) {
        DroppedOnlyForCause(n, cursor, s[1..], r);
      } else {
        var rest := Accept(n, s[0].end, s[1..]);
        assert Accept(n, cursor, s) == [s[0]] + rest;
        if r.start < s[0].end {
          assert s[0] in Accept(n, cursor, s);
        } else {
          DroppedOnlyForCause(n, s[0].end, s[1..], r);
          assert forall a :: a in rest ==> a in Accept(n, cursor, s);
        }
      }
    }
  }

  lemma {:induction false} EveryReplacementAccountedFor(orig: Bytes, reps: seq<Replacement>, r: Replacement)
    requires r in reps
    ensures forall a :: a in Accepted(orig, reps) ==> a in reps
    ensures r in Accepted(orig, reps)
      || r.start < 0 || r.end < r.start || r.end > |orig|
      || exists a :: a in Accepted(orig, reps) && a.start <= r.start < a.end
  {
    var sorted := SortByStart(reps);
    StableSortContract(reps, 0);
    SortMembers(reps);
    AcceptIsSubset(|orig|, 0, sorted);
    if 0 <= r.start <= r.end <= |orig| {
      DroppedOnlyForCause(|orig|, 0, sorted, r);
    }
  }

  lemma {:induction false} AcceptIsSubset(n: nat, cursor: int, s: seq<Replacement>)
    ensures forall a :: a in Accept(n, cursor, s) ==> a in s
    decreases |s|
  {
    if s != [] {
      AcceptIsSubset(n, if Refused(s[0], n, cursor) then cursor else s[0].end, s[1..]);
    }
  }

  /** The lockstep walk a caller makes: the gaps between ranges and the text in
      each range. Widths of the ranges come from `width`, so the same walk reads
      the input (end - start) and the output (newLen). */
  datatype Walk = Walk(gaps: seq<Bytes>, fills: seq<Bytes>)

  function WalkWidth(r: Range, output: bool): int {
    if output then r.newLen else r.end - r.start
  }

  ghost predicate Walkable(text: Bytes, cursor: int, ranges: seq<Range>, output: bool)
    decreases |ranges|
  {
    if ranges == [] then true
    else
      var gap := ranges[0].start - cursor;
      var width := WalkWidth(ranges[0], output);
      0 <= gap && 0 <= width && gap + width <= |text|
      && Walkable(text[gap + width..], ranges[0].end, ranges[1..], output)
  }

  ghost function WalkText(text: Bytes, cursor: int, ranges: seq<Range>, output: bool): Walk
    requires Walkable(text, cursor, ranges, output)
    decreases |ranges|
  {
    if ranges == [] then Walk([text], [])
    else
      var gap := ranges[0].start - cursor;
      var width := WalkWidth(ranges[0], output);
      var rest := WalkText(text[gap + width..], ranges[0].end, ranges[1..], output);
      Walk([text[..gap]] + rest.gaps, [text[gap..gap + width]] + rest.fills)
  }

  function Weave(gaps: seq<Bytes>, fills: seq<Bytes>): Bytes
    requires |gaps| == |fills| + 1
  {
    if fills == [] then gaps[0] else gaps[0] + fills[0] + Weave(gaps[1..], fills[1..])
  }

  function Repls(acc: seq<Replacement>): seq<Bytes> {
    if acc == [] then [] else [acc[0].repl] + Repls(acc[1..])
  }

  lemma {:induction false} OutputWalk(orig: Bytes, cursor: nat, acc: seq<Replacement>)
    requires cursor <= |orig| && Disjoint(acc, cursor, |orig|)
    ensures Walkable(Spliced(orig, cursor, acc), cursor, RangesOf(acc), true)
    ensures WalkText(Spliced(orig, cursor, acc), cursor, RangesOf(acc), true)
         == Walk(Gaps(orig, cursor, acc), Repls(acc))
    decreases |acc|
  {
    if acc != [] {
      var a := acc[0];
      assert Disjoint(acc[1..], a.end, |orig|);
      OutputWalk(orig, a.end, acc[1..]);
      var gap := a.start - cursor;
      var tail := Spliced(orig, a.end, acc[1..]);
      var out := Spliced(orig, cursor, acc);
      assert out[gap + |a.repl|..] == tail;
      assert out[..gap] == orig[cursor..a.start];
      assert out[gap..gap + |a.repl|] == a.repl;
      assert RangesOf(acc)[1..] == RangesOf(acc[1..]);
    }
  }

  lemma {:induction false} InputWalk(orig: Bytes, cursor: nat, acc: seq<Replacement>)
    requires cursor <= |orig| && Disjoint(acc, cursor, |orig|)
    ensures Walkable(orig[cursor..], cursor, RangesOf(acc), false)
    ensures WalkText(orig[cursor..], cursor, RangesOf(acc), false)
         == Walk(Gaps(orig, cursor, acc), Originals(orig, cursor, acc))
    decreases |acc|
  {
    if acc != [] {
      var a := acc[0];
      assert Disjoint(acc[1..], a.end, |orig|);
      InputWalk(orig, a.end, acc[1..]);
      SliceOfSlice(orig, cursor, a.start, a.end);
      assert RangesOf(acc)[1..] == RangesOf(acc[1..]);
    }
  }

  lemma {:induction false} SliceOfSlice(orig: Bytes, cursor: nat, start: nat, end: nat)
    requires cursor <= start <= end <= |orig|
    ensures orig[cursor..][..start - cursor] == orig[cursor..start]
    ensures orig[cursor..][start - cursor..end - cursor] == orig[start..end]
    ensures orig[cursor..][end - cursor..] == orig[end..]
  {
  }

  /** The untouched stretches and the rewritten stretches of the input. */
  ghost function Gaps(orig: Bytes, cursor: nat, acc: seq<Replacement>): (g: seq<Bytes>)
    requires cursor <= |orig| && Disjoint(acc, cursor, |orig|)
    ensures |g| == |acc| + 1
    decreases |acc|
  {
    if acc == [] then [orig[cursor..]]
    else
      assert Disjoint(acc[1..], acc[0].end, |orig|);
      [orig[cursor..acc[0].start]] + Gaps(orig, acc[0].end, acc[1..])
  }

  ghost function Originals(orig: Bytes, cursor: nat, acc: seq<Replacement>): (f: seq<Bytes>)
    requires cursor <= |orig| && Disjoint(acc, cursor, |orig|)
    ensures |f| == |acc|
    decreases |acc|
  {
    if acc == [] then []
    else
      assert Disjoint(acc[1..], acc[0].end, |orig|);
      [orig[acc[0].start..acc[0].end]] + Originals(orig, acc[0].end, acc[1..])
  }

  lemma {:induction false} WeaveRebuilds(orig: Bytes, cursor: nat, acc: seq<Replacement>)
    requires cursor <= |orig| && Disjoint(acc, cursor, |orig|)
    ensures Weave(Gaps(orig, cursor, acc), Originals(orig, cursor, acc)) == orig[cursor..]
    decreases |acc|
  {
    if acc != [] {
      var a := acc[0];
      assert Disjoint(acc[1..], a.end, |orig|);
      WeaveRebuilds(orig, a.end, acc[1..]);
      assert orig[cursor..] == orig[cursor..a.start] + orig[a.start..a.end] + orig[a.end..];
    }
  }

  /** Byte faithfulness: walking input and output in lockstep finds equal gaps,
      the output's ranges hold exactly the accepted replacements, and putting the
      input's ranges back between the output's gaps rebuilds the input. */
  lemma {:induction false} SpliceIsFaithful(orig: Bytes, reps: seq<Replacement>)
    ensures var acc := Accepted(orig, reps);
            var out := Spliced(orig, 0, acc);
            && Walkable(out, 0, RangesOf(acc), true)
            && Walkable(orig, 0, RangesOf(acc), false)
            && var o := WalkText(out, 0, RangesOf(acc), true);
               var i := WalkText(orig, 0, RangesOf(acc), false);
               && o.gaps == i.gaps && o.fills == Repls(acc)
               && |i.gaps| == |i.fills| + 1 && Weave(o.gaps, i.fills) == orig
  {
    OutputWalk(orig, 0, Accepted(orig, reps));
    InputWalk(orig, 0, Accepted(orig, reps));
    WeaveRebuilds(orig, 0, Accepted(orig, reps));
    assert orig[0..] == orig;
  }

  function Growth(ranges: seq<Range>): int {
    if ranges == [] then 0 else ranges[0].newLen - (ranges[0].end - ranges[0].start) + Growth(ranges[1..])
  }

  lemma {:induction false} LengthAccounting(orig: Bytes, cursor: nat, acc: seq<Replacement>)
    requires cursor <= |orig| && Disjoint(acc, cursor, |orig|)
    ensures |Spliced(orig, cursor, acc)| == |orig| - cursor + Growth(RangesOf(acc))
    decreases |acc|
  {
    if acc != [] {
      assert Disjoint(acc[1..], acc[0].end, |orig|);
      LengthAccounting(orig, acc[0].end, acc[1..]);
      assert RangesOf(acc)[1..] == RangesOf(acc[1..]);
    }
  }

  // ---- order independence ----

  /** Every replacement in range and non-empty, no two overlapping. */
  ghost predicate Separate(reps: seq<Replacement>, n: nat) {
    && (forall i :: 0 <= i < |reps| ==> 0 <= reps[i].start < reps[i].end <= n)
    && (forall i, j :: 0 <= i < |reps| && 0 <= j < |reps| && i != j ==>
          reps[i].end <= reps[j].start || reps[j].end <= reps[i].start)
  }

  ghost predicate Chain(s: seq<Replacement>, cursor: int, n: nat) {
    && (forall i :: 0 <= i < |s| ==> cursor <= s[i].start < s[i].end <= n)
    && (forall i, j :: 0 <= i < j < |s| ==> s[i].end <= s[j].start)
  }

  lemma {:induction false} InsertKeepsChain(r: Replacement, s: seq<Replacement>, cursor: int, n: nat)
    requires Chain(s, cursor, n) && cursor <= r.start < r.end <= n
    requires forall i :: 0 <= i < |s| ==> r.end <= s[i].start || s[i].end <= r.start
    ensures Chain(InsertByStart(r, s), cursor, n)
  {
    if s == [] || r.start <= s[0].start {
    } else {
      assert forall i :: 0 <= i < |s[1..]| ==> s[1..][i] == s[i + 1];
      InsertKeepsChain(r, s[1..], s[0].end, n);
    }
  }

  lemma {:induction false} SortedSeparateIsChain(reps: seq<Replacement>, n: nat)
    requires Separate(reps, n)
    ensures Chain(SortByStart(reps), 0, n)
  {
    if reps != [] {
      var t := reps[1..];
      assert forall i :: 0 <= i < |t| ==> t[i] == reps[i + 1];
      SortedSeparateIsChain(t, n);
      SortMembers(t);
      var s := SortByStart(t);
      forall i | 0 <= i < |s| ensures reps[0].end <= s[i].start || s[i].end <= reps[0].start {
        assert s[i] in t;
      }
      InsertKeepsChain(reps[0], s, 0, n);
    }
  }

  lemma {:induction false} ChainTail(s: seq<Replacement>, cursor: int, n: nat)
    requires Chain(s, cursor, n) && s != []
    ensures Chain(s[1..], s[0].end, n)
  {
  }

  lemma {:induction false} HeadAndTail<T>(s: seq<T>)
    requires s != []
    ensures s == [s[0]] + s[1..]
  {
  }

  lemma {:induction false} ChainAllAccepted(n: nat, cursor: int, s: seq<Replacement>)
    requires Chain(s, cursor, n)
    ensures Accept(n, cursor, s) == s
    decreases |s|
  {
    if s != [] {
      ChainTail(s, cursor, n);
      ChainAllAccepted(n, s[0].end, s[1..]);
      HeadAndTail(s);
    }
  }

  lemma {:induction false} ChainsAreCanonical(a: seq<Replacement>, b: seq<Replacement>, cursor: int, n: nat)
    requires Chain(a, cursor, n) && Chain(b, cursor, n) && multiset(a) == multiset(b)
    ensures a == b
  {
    if a == [] {
      if b != [] {
        SameHead(b, a, cursor, n);
      }
    } else {
      SameHead(a, b, cursor, n);
      TailMultiset(a);
      TailMultiset(b);
      ChainsAreCanonical(a[1..], b[1..], cursor, n);
      SameHeadAndTail(a, b);
    }
  }

  lemma {:induction false} SameHeadAndTail<T>(a: seq<T>, b: seq<T>)
    requires a != [] && b != [] && a[0] == b[0] && a[1..] == b[1..]
    ensures a == b
  {
    assert a == [a[0]] + a[1..] && b == [b[0]] + b[1..];
  }

  lemma {:induction false} TailMultiset(a: seq<Replacement>)
    requires a != []
    ensures multiset(a[1..]) == multiset(a) - multiset{a[0]}
  {
    assert a == [a[0]] + a[1..];
  }

  lemma {:induction false} SameHead(a: seq<Replacement>, b: seq<Replacement>, cursor: int, n: nat)
    requires Chain(a, cursor, n) && Chain(b, cursor, n) && multiset(a) == multiset(b) && a != []
    ensures b != [] && a[0] == b[0]
  {
    assert a[0] in multiset(a);
    assert a[0] in b;
    assert b[0] in multiset(b);
    assert b[0] in a;
  }

  /** Separate replacements are all applied, whatever order they arrive in. */
  lemma {:induction false} OrderDoesNotMatter(orig: Bytes, reps: seq<Replacement>, other: seq<Replacement>)
    requires Separate(reps, |orig|) && multiset(reps) == multiset(other)
    ensures multiset(Accepted(orig, reps)) == multiset(reps)
    ensures Accepted(orig, other) == Accepted(orig, reps)
  {
    SortedSeparateIsChain(reps, |orig|);
    StableSortContract(reps, 0);
    ChainAllAccepted(|orig|, 0, SortByStart(reps));
    SeparateIsUnordered(reps, other, |orig|);
    SortedSeparateIsChain(other, |orig|);
    StableSortContract(other, 0);
    ChainsAreCanonical(SortByStart(reps), SortByStart(other), 0, |orig|);
  }

  /** Being separate does not depend on the order of the list. */
  lemma {:induction false} SeparateIsUnordered(reps: seq<Replacement>, other: seq<Replacement>, n: nat)
    requires Separate(reps, n) && multiset(reps) == multiset(other)
    ensures Separate(other, n)
  {
    forall i | 0 <= i < |other| ensures 0 <= other[i].start < other[i].end <= n {
      assert other[i] in multiset(other);
      assert other[i] in reps;
    }
    forall i, j | 0 <= i < |other| && 0 <= j < |other| && i != j
      ensures other[i].end <= other[j].start || other[j].end <= other[i].start
    {
      if other[i] == other[j] {
        TwiceInSeq(other, i, j);
        OnceInSeparate(reps, other[i], n);
        assert false;
      } else {
        assert other[i] in multiset(other) && other[j] in multiset(other);
        assert other[i] in reps && other[j] in reps;
        var p :| 0 <= p < |reps| && reps[p] == other[i];
        var q :| 0 <= q < |reps| && reps[q] == other[j];
        assert p != q;
      }
    }
  }

  lemma {:induction false} TwiceInSeq(s: seq<Replacement>, i: nat, j: nat)
    requires i < |s| && j < |s| && i != j && s[i] == s[j]
    ensures multiset(s)[s[i]] >= 2
  {
    var lo, hi := if i < j then i else j, if i < j then j else i;
    assert s == s[..hi] + [s[hi]] + s[hi + 1..];
    assert s[..hi][lo] == s[i];
    assert s[i] in multiset(s[..hi]);
  }

  lemma {:induction false} OnceInSeparate(reps: seq<Replacement>, r: Replacement, n: nat)
    requires Separate(reps, n)
    ensures multiset(reps)[r] <= 1
  {
    if r in reps {
      var i :| 0 <= i < |reps| && reps[i] == r;
      assert reps == reps[..i] + [r] + reps[i + 1..];
      assert r !in reps[..i] && r !in reps[i + 1..];
    }
  }
}
