/** Swapping custom tag regions for placeholders: ProtectTags of
    internal/tagprotect/tagprotect.go. The tables of tag names are
    a parameter, known. */
module TagProtect {

  import opened Common
  import opened Text
  import opened TagLex
  import opened TagRestore

  // ---- choosing the prefix ----

  const SALT_ATTEMPTS: nat := 16

  /** The first salted prefix from salt on that the text does not hold, or the fallback. */
  ghost function FirstFree(text: string, salt: nat): string
    decreases SALT_ATTEMPTS - salt
  {
    if salt >= SALT_ATTEMPTS then FALLBACK_PREFIX
    else if !Contains(text, SaltedPrefix(salt)) then SaltedPrefix(salt)
    else FirstFree(text, salt + 1)
  }

  ghost function PrefixOf(text: string): string {
    if !Contains(text, DEFAULT_PREFIX) then DEFAULT_PREFIX else FirstFree(text, 0)
  }

  method ChoosePrefix(text: string) returns (prefix: string, avoided: bool)
    ensures prefix == PrefixOf(text)
    ensures avoided <==> Contains(text, DEFAULT_PREFIX)
  {
    if !Contains(text, DEFAULT_PREFIX) {
      return DEFAULT_PREFIX, false;
    }
    for salt := 0 to SALT_ATTEMPTS
      invariant FirstFree(text, salt) == FirstFree(text, 0)
    {
      var candidate := SaltedPrefix(salt);
      if !Contains(text, candidate) {
        return candidate, true;
      }
    }
    return FALLBACK_PREFIX, true;
  }

  /** The text names every prefix the scan tries. */
  ghost predicate Exhausts(text: string) {
    Contains(text, DEFAULT_PREFIX) && forall k :: 0 <= k < SALT_ATTEMPTS ==> Contains(text, SaltedPrefix(k))
  }

  lemma {:induction false} FirstFreeIs(text: string, salt: nat)
    requires salt <= SALT_ATTEMPTS
    ensures GoodPrefix(FirstFree(text, salt))
    ensures if forall k :: salt <= k < SALT_ATTEMPTS ==> Contains(text, SaltedPrefix(k))
            then FirstFree(text, salt) == FALLBACK_PREFIX else !Contains(text, FirstFree(text, salt))
    decreases SALT_ATTEMPTS - salt
  {
    AllPrefixesAreGood(salt);
    if salt < SALT_ATTEMPTS && Contains(text, SaltedPrefix(salt)) {
      FirstFreeIs(text, salt + 1);
      if k :| salt <= k < SALT_ATTEMPTS && !Contains(text, SaltedPrefix(k)) {
        assert k >= salt + 1;
      }
    }
  }

  /** The chosen prefix is absent from the text, unless the text names all seventeen
      candidates; then it is the fallback, unchecked. */
  lemma {:induction false} PrefixIsAbsent(text: string)
    ensures GoodPrefix(PrefixOf(text))
    ensures if Exhausts(text) then PrefixOf(text) == FALLBACK_PREFIX else !Contains(text, PrefixOf(text))
  {
    AllPrefixesAreGood(0);
    FirstFreeIs(text, 0);
  }

  /** The plain prefix when the text does not hold it; otherwise the salted one with the
      lowest salt it does not hold. */
  lemma {:induction false} PrefixIsFirst(text: string, salt: nat)
    ensures !Contains(text, DEFAULT_PREFIX) ==> PrefixOf(text) == DEFAULT_PREFIX
    ensures IsFirstFree(text, salt) ==> PrefixOf(text) == DEFAULT_PREFIX + Itoa(salt) + "_"
  {
    if IsFirstFree(text, salt) {
      FirstFreeFrom(text, 0, salt);
    }
  }

  /** The text holds the plain prefix and every salted one before this, but not this. */
  ghost predicate IsFirstFree(text: string, salt: nat) {
    && Contains(text, DEFAULT_PREFIX) && salt < 16 && !Contains(text, SaltedPrefix(salt))
    && forall k: nat :: k < salt ==> Contains(text, SaltedPrefix(k))
  }

  lemma {:induction false} FirstFreeFrom(text: string, from: nat, salt: nat)
    requires from <= salt < SALT_ATTEMPTS && !Contains(text, SaltedPrefix(salt))
    requires forall k: nat :: from <= k < salt ==> Contains(text, SaltedPrefix(k))
    ensures FirstFree(text, from) == SaltedPrefix(salt)
    decreases salt - from
  {
    if from < salt {
      FirstFreeFrom(text, from + 1, salt);
    }
  }

  // ---- the walk ----

  datatype SpanKind = BlockSpan | SelfClosing | OpenMarker | CloseMarker

  datatype Span = Span(start: nat, end: nat, kind: SpanKind)

  datatype Opened = Opened(name: string, start: nat)

  /** Spans found so far, and the custom tags still open. */
  datatype Walk = Walk(spans: seq<Span>, stack: seq<Opened>)

  /** Index of the topmost open tag of that name, or |stack|. */
  ghost function TopOf(stack: seq<Opened>, name: string): (k: nat)
    ensures k <= |stack|
    ensures k < |stack| ==> stack[k].name == name && forall i :: k < i < |stack| ==> stack[i].name != name
    ensures k == |stack| ==> forall i :: 0 <= i < |stack| ==> stack[i].name != name
  {
    if stack == [] then 0
    else if stack[|stack| - 1].name == name then |stack| - 1
    else
      var k := TopOf(stack[..|stack| - 1], name);
      if k == |stack| - 1 then |stack| else k
  }

  ghost function StartingBefore(spans: seq<Span>, bound: nat): seq<Span> {
    if spans == [] then []
    else
      var init := StartingBefore(spans[..|spans| - 1], bound);
      var last := spans[|spans| - 1];
      if last.start < bound then init + [last] else init
  }

  /** What one custom tag at position i does. In marker mode only the tags are
      protected, in block mode whole regions are. */
  ghost function Visit(w: Walk, i: nat, t: Tag, name: string, markers: bool): Walk
    requires !t.NotTag?
  {
    if t.OpenTag? then VisitOpen(w, i, t, name, markers) else VisitClose(w, i, t, name, markers)
  }

  ghost function VisitOpen(w: Walk, i: nat, t: Tag, name: string, markers: bool): Walk
    requires t.OpenTag?
  {
    if t.selfClosing then w.(spans := w.spans + [Span(i, t.tagEnd, SelfClosing)])
    else if markers then Walk(w.spans + [Span(i, t.tagEnd, OpenMarker)], w.stack + [Opened(name, i)])
    else w.(stack := w.stack + [Opened(name, i)])
  }

  ghost function VisitClose(w: Walk, i: nat, t: Tag, name: string, markers: bool): Walk
    requires t.CloseTag?
  {
    var k := TopOf(w.stack, name);
    if k == |w.stack| then w
    else if markers then Walk(w.spans + [Span(i, t.tagEnd, CloseMarker)], w.stack[..k])
    else Walk(StartingBefore(w.spans, w.stack[k].start) + [Span(w.stack[k].start, t.tagEnd, BlockSpan)], w.stack[..k])
  }

  /** One stop of the walk: a tag on the allowlist changes nothing. */
  ghost function Stop(s: string, known: string -> bool, w: Walk, i: nat, t: Tag, markers: bool): Walk
    requires !t.NotTag? && t.nameStart <= t.nameEnd <= |s|
  {
    if known(NameOf(s, t)) then w else Visit(w, i, t, NameOf(s, t), markers)
  }

  /** The walk from position i on. */
  ghost function WalkFrom(s: string, known: string -> bool, markers: bool, i: nat, w: Walk): Walk
    requires i <= |s|
    decreases |s| - i
  {
    if i == |s| then w
    else if s[i] != '<' || TagAt(s, i).NotTag? then WalkFrom(s, known, markers, i + 1, w)
    else WalkFrom(s, known, markers, TagAt(s, i).tagEnd, Stop(s, known, w, i, TagAt(s, i), markers))
  }

  ghost function SpansOf(s: string, known: string -> bool, markers: bool): seq<Span> {
    WalkFrom(s, known, markers, 0, Walk([], [])).spans
  }

  // ---- spans stay sorted, disjoint and bracketed ----

  ghost predicate GoodSpan(s: string, p: Span, i: nat) {
    p.start + 2 <= p.end <= i <= |s| && s[p.start] == '<' && s[p.end - 1] == '>'
  }

  ghost predicate GoodSpans(s: string, spans: seq<Span>, i: nat) {
    forall a :: 0 <= a < |spans| ==> GoodSpan(s, spans[a], i)
  }

  ghost predicate Ordered(spans: seq<Span>) {
    forall a, b :: 0 <= a < b < |spans| ==> spans[a].end <= spans[b].start
  }

  ghost predicate GoodStack(s: string, stack: seq<Opened>, i: nat) {
    && (forall a :: 0 <= a < |stack| ==> stack[a].start + 2 <= i <= |s| && s[stack[a].start] == '<')
    && (forall a, b :: 0 <= a < b < |stack| ==> stack[a].start < stack[b].start)
  }

  /** No span reaches across the start of an open tag. */
  ghost predicate NoneStraddles(spans: seq<Span>, start: nat) {
    forall b :: 0 <= b < |spans| ==> spans[b].end <= start || start < spans[b].start
  }

  ghost predicate Nested(spans: seq<Span>, stack: seq<Opened>) {
    forall a :: 0 <= a < |stack| ==> NoneStraddles(spans, stack[a].start)
  }

  ghost predicate GoodWalk(s: string, w: Walk, i: nat, markers: bool) {
    && i <= |s| && GoodSpans(s, w.spans, i) && Ordered(w.spans) && GoodStack(s, w.stack, i)
    && (!markers ==> Nested(w.spans, w.stack))
  }

  /** The first m spans start before bound, the others do not. */
  ghost predicate SplitAt(spans: seq<Span>, bound: nat, m: nat) {
    m <= |spans| && forall a :: 0 <= a < |spans| ==> (spans[a].start < bound <==> a < m)
  }

  lemma {:induction false} KeepFirst(spans: seq<Span>, bound: nat, m: nat)
    requires SplitAt(spans, bound, m)
    ensures StartingBefore(spans, bound) == spans[..m]
  {
    if spans != [] {
      var init := spans[..|spans| - 1];
      var m' := if m < |spans| then m else m - 1;
      KeepFirst(init, bound, m');
      assert m < |spans| ==> init[..m] == spans[..m];
      assert m == |spans| ==> spans[..m] == init[..m'] + [spans[|spans| - 1]];
    }
  }

  /** On ascending spans the in-place filter keeps a prefix. */
  lemma {:induction false} KeptIsPrefix(spans: seq<Span>, bound: nat) returns (m: nat)
    requires Ordered(spans) && forall a :: 0 <= a < |spans| ==> spans[a].start < spans[a].end
    ensures SplitAt(spans, bound, m) && StartingBefore(spans, bound) == spans[..m]
  {
    m := 0;
    while m < |spans| && spans[m].start < bound
      invariant m <= |spans| && forall a :: 0 <= a < m ==> spans[a].start < bound
    {
      m := m + 1;
    }
    forall a | m <= a < |spans| ensures spans[a].start >= bound {
      assert a > m ==> spans[m].end <= spans[a].start;
    }
    KeepFirst(spans, bound, m);
  }

  lemma {:induction false} BlockSwallows(s: string, w: Walk, i: nat, t: Tag, k: nat)
    requires GoodWalk(s, w, i, false) && k < |w.stack| && t.CloseTag? && i + 3 <= t.tagEnd <= |s|
    requires s[t.tagEnd - 1] == '>'
    ensures var kept := StartingBefore(w.spans, w.stack[k].start);
            var p := Span(w.stack[k].start, t.tagEnd, BlockSpan);
            GoodSpans(s, kept + [p], t.tagEnd) && Ordered(kept + [p]) && Nested(kept + [p], w.stack[..k])
  {
    var o := w.stack[k].start;
    var m := KeptIsPrefix(w.spans, o);
    assert NoneStraddles(w.spans, o);
    forall a | 0 <= a < k
      ensures NoneStraddles(w.spans[..m] + [Span(o, t.tagEnd, BlockSpan)], w.stack[..k][a].start)
    {
      assert NoneStraddles(w.spans, w.stack[a].start);
    }
  }

  lemma {:induction false} OpenStaysGood(s: string, w: Walk, i: nat, t: Tag, name: string, markers: bool)
    requires GoodWalk(s, w, i, markers) && t.OpenTag? && i + 2 <= t.tagEnd <= |s| && s[i] == '<'
    requires s[t.tagEnd - 1] == '>'
    ensures GoodWalk(s, VisitOpen(w, i, t, name, markers), t.tagEnd, markers)
  {
    var out := VisitOpen(w, i, t, name, markers);
    if !markers {
      OpenStaysNested(s, w, i, t, name);
    }
  }

  lemma {:induction false} OpenStaysNested(s: string, w: Walk, i: nat, t: Tag, name: string)
    requires GoodWalk(s, w, i, false) && t.OpenTag? && i < t.tagEnd
    ensures var out := VisitOpen(w, i, t, name, false); Nested(out.spans, out.stack)
  {
    var out := VisitOpen(w, i, t, name, false);
    forall a | 0 <= a < |out.stack| ensures NoneStraddles(out.spans, out.stack[a].start) {
      assert a < |w.stack| ==> NoneStraddles(w.spans, w.stack[a].start);
    }
  }

  lemma {:induction false} CloseStaysGood(s: string, w: Walk, i: nat, t: Tag, name: string, markers: bool)
    requires GoodWalk(s, w, i, markers) && t.CloseTag? && i + 3 <= t.tagEnd <= |s| && s[i] == '<'
    requires s[t.tagEnd - 1] == '>'
    ensures GoodWalk(s, VisitClose(w, i, t, name, markers), t.tagEnd, markers)
  {
    var k := TopOf(w.stack, name);
    if k < |w.stack| && !markers {
      BlockSwallows(s, w, i, t, k);
    }
  }

  lemma {:induction false} StopStaysGood(s: string, known: string -> bool, w: Walk, i: nat, markers: bool)
    requires GoodWalk(s, w, i, markers) && i < |s| && s[i] == '<' && !TagAt(s, i).NotTag?
    ensures GoodWalk(s, Stop(s, known, w, i, TagAt(s, i), markers), TagAt(s, i).tagEnd, markers)
  {
    var t := TagAt(s, i);
    var name := NameOf(s, t);
    if known(name) {
    } else if t.OpenTag? {
      OpenStaysGood(s, w, i, t, name, markers);
    } else {
      CloseStaysGood(s, w, i, t, name, markers);
    }
  }

  lemma {:induction false} WalkStaysGood(s: string, known: string -> bool, markers: bool, i: nat, w: Walk)
    requires GoodWalk(s, w, i, markers)
    ensures GoodWalk(s, WalkFrom(s, known, markers, i, w), |s|, markers)
    decreases |s| - i
  {
    if i == |s| {
    } else if s[i] != '<' || TagAt(s, i).NotTag? {
      WalkStaysGood(s, known, markers, i + 1, w);
    } else {
      StopStaysGood(s, known, w, i, markers);
      WalkStaysGood(s, known, markers, TagAt(s, i).tagEnd, Stop(s, known, w, i, TagAt(s, i), markers));
    }
  }

  /** Whatever the text and the allowlist, the spans are ascending, disjoint, and
      each runs from a '<' to a '>'. */
  lemma {:induction false} SpansAreGood(s: string, known: string -> bool, markers: bool)
    ensures GoodSpans(s, SpansOf(s, known, markers), |s|) && Ordered(SpansOf(s, known, markers))
  {
    WalkStaysGood(s, known, markers, 0, Walk([], []));
  }

  // ---- which regions are protected ----

  /** A tag outside the allowlist stands at p. */
  ghost predicate Custom(s: string, known: string -> bool, p: nat) {
    p < |s| && s[p] == '<' && !TagAt(s, p).NotTag? && !known(NameOf(s, TagAt(s, p)))
  }

  /** A custom open tag of that name, not self-closing, stands at p. */
  ghost predicate Opens(s: string, known: string -> bool, p: nat, name: string) {
    Custom(s, known, p) && TagAt(s, p).OpenTag? && !TagAt(s, p).selfClosing && NameOf(s, TagAt(s, p)) == name
  }

  /** A custom close tag of that name stands at c and ends at end. */
  ghost predicate Closes(s: string, known: string -> bool, c: nat, name: string, end: nat) {
    Custom(s, known, c) && TagAt(s, c).CloseTag? && NameOf(s, TagAt(s, c)) == name && TagAt(s, c).tagEnd == end
  }

  /** Markers and self-closing tags are single custom tags; a block runs from a
      custom open tag to a close tag of the same name. */
  ghost predicate Justified(s: string, known: string -> bool, p: Span) {
    && Custom(s, known, p.start)
    && var t := TagAt(s, p.start);
       match p.kind
       case SelfClosing => t.OpenTag? && t.selfClosing && p.end == t.tagEnd
       case OpenMarker => t.OpenTag? && !t.selfClosing && p.end == t.tagEnd
       case CloseMarker => t.CloseTag? && p.end == t.tagEnd
       case BlockSpan => Opens(s, known, p.start, NameOf(s, t)) && exists c :: Closes(s, known, c, NameOf(s, t), p.end)
  }

  ghost predicate JustifiedSpans(s: string, known: string -> bool, spans: seq<Span>) {
    forall a :: 0 <= a < |spans| ==> Justified(s, known, spans[a])
  }

  ghost predicate JustifiedStack(s: string, known: string -> bool, stack: seq<Opened>) {
    forall a :: 0 <= a < |stack| ==> Opens(s, known, stack[a].start, stack[a].name)
  }

  lemma {:induction false} SpansAppend(s: string, known: string -> bool, spans: seq<Span>, m: nat, p: Span)
    requires JustifiedSpans(s, known, spans) && m <= |spans| && Justified(s, known, p)
    ensures JustifiedSpans(s, known, spans[..m] + [p])
  {
  }

  lemma {:induction false} OpenStaysJustified(s: string, known: string -> bool, w: Walk, i: nat, name: string,
                                              markers: bool)
    requires JustifiedSpans(s, known, w.spans) && JustifiedStack(s, known, w.stack)
    requires Custom(s, known, i) && TagAt(s, i).OpenTag? && name == NameOf(s, TagAt(s, i))
    ensures var out := VisitOpen(w, i, TagAt(s, i), name, markers);
            JustifiedSpans(s, known, out.spans) && JustifiedStack(s, known, out.stack)
  {
    var t := TagAt(s, i);
    assert w.spans[..|w.spans|] == w.spans;
    if t.selfClosing {
      SpansAppend(s, known, w.spans, |w.spans|, Span(i, t.tagEnd, SelfClosing));
    } else if markers {
      SpansAppend(s, known, w.spans, |w.spans|, Span(i, t.tagEnd, OpenMarker));
    }
  }

  lemma {:induction false} CloseStaysJustified(s: string, known: string -> bool, w: Walk, i: nat, name: string,
                                               markers: bool)
    requires JustifiedSpans(s, known, w.spans) && JustifiedStack(s, known, w.stack)
    requires Custom(s, known, i) && TagAt(s, i).CloseTag? && name == NameOf(s, TagAt(s, i))
    requires Ordered(w.spans) && forall a :: 0 <= a < |w.spans| ==> w.spans[a].start < w.spans[a].end
    ensures var out := VisitClose(w, i, TagAt(s, i), name, markers);
            JustifiedSpans(s, known, out.spans) && JustifiedStack(s, known, out.stack)
  {
    var t := TagAt(s, i);
    var k := TopOf(w.stack, name);
    if k < |w.stack| {
      var o := w.stack[k].start;
      assert Opens(s, known, o, name) && Closes(s, known, i, name, t.tagEnd);
      if markers {
        assert w.spans[..|w.spans|] == w.spans;
        SpansAppend(s, known, w.spans, |w.spans|, Span(i, t.tagEnd, CloseMarker));
      } else {
        var m := KeptIsPrefix(w.spans, o);
        SpansAppend(s, known, w.spans, m, Span(o, t.tagEnd, BlockSpan));
      }
    }
  }

  lemma {:induction false} WalkStaysJustified(s: string, known: string -> bool, markers: bool, i: nat, w: Walk)
    requires GoodWalk(s, w, i, markers) && JustifiedSpans(s, known, w.spans) && JustifiedStack(s, known, w.stack)
    ensures JustifiedSpans(s, known, WalkFrom(s, known, markers, i, w).spans)
    decreases |s| - i
  {
    if i == |s| {
    } else if s[i] != '<' || TagAt(s, i).NotTag? {
      WalkStaysJustified(s, known, markers, i + 1, w);
    } else {
      var name := NameOf(s, TagAt(s, i));
      if known(name) {
      } else if TagAt(s, i).OpenTag? {
        OpenStaysJustified(s, known, w, i, name, markers);
      } else {
        CloseStaysJustified(s, known, w, i, name, markers);
      }
      StopStaysGood(s, known, w, i, markers);
      WalkStaysJustified(s, known, markers, TagAt(s, i).tagEnd, Stop(s, known, w, i, TagAt(s, i), markers));
    }
  }

  /** Only custom tags and the regions they enclose are ever protected. */
  lemma {:induction false} SpansAreJustified(s: string, known: string -> bool, markers: bool)
    ensures JustifiedSpans(s, known, SpansOf(s, known, markers))
  {
    WalkStaysJustified(s, known, markers, 0, Walk([], []));
  }

  // ---- nothing met is left out ----

  /** start..end lies inside some span. */
  ghost predicate Covered(spans: seq<Span>, start: nat, end: nat) {
    exists a :: 0 <= a < |spans| && spans[a].start <= start && end <= spans[a].end
  }

  lemma {:induction false} CoverAppend(spans: seq<Span>, p: Span, start: nat, end: nat)
    requires Covered(spans, start, end)
    ensures Covered(spans + [p], start, end)
  {
    var a :| 0 <= a < |spans| && spans[a].start <= start && end <= spans[a].end;
    assert (spans + [p])[a] == spans[a];
  }

  lemma {:induction false} CoverSwallowed(spans: seq<Span>, p: Span, start: nat, end: nat)
    requires Ordered(spans) && forall a :: 0 <= a < |spans| ==> spans[a].start < spans[a].end <= p.end
    requires Covered(spans, start, end)
    ensures Covered(StartingBefore(spans, p.start) + [p], start, end)
  {
    var a :| 0 <= a < |spans| && spans[a].start <= start && end <= spans[a].end;
    var m := KeptIsPrefix(spans, p.start);
    var out := spans[..m] + [p];
    assert out[m] == p;
    assert a < m ==> out[a] == spans[a];
  }

  lemma {:induction false} CoverStays(s: string, known: string -> bool, w: Walk, i: nat, markers: bool, start: nat,
                                      end: nat)
    requires GoodWalk(s, w, i, markers) && i < |s| && s[i] == '<' && !TagAt(s, i).NotTag?
    requires Covered(w.spans, start, end)
    ensures Covered(Stop(s, known, w, i, TagAt(s, i), markers).spans, start, end)
  {
    var t := TagAt(s, i);
    var name := NameOf(s, t);
    var out := Stop(s, known, w, i, t, markers).spans;
    if t.CloseTag? && !markers && !known(name) && TopOf(w.stack, name) < |w.stack| {
      CoverSwallowed(w.spans, Span(w.stack[TopOf(w.stack, name)].start, t.tagEnd, BlockSpan), start, end);
    } else if out != w.spans {
      CoverAppend(w.spans, out[|w.spans|], start, end);
    }
  }

  lemma {:induction false} CoverSurvives(s: string, known: string -> bool, markers: bool, i: nat, w: Walk, start: nat,
                                         end: nat)
    requires GoodWalk(s, w, i, markers) && Covered(w.spans, start, end)
    ensures Covered(WalkFrom(s, known, markers, i, w).spans, start, end)
    decreases |s| - i
  {
    if i == |s| {
    } else if s[i] != '<' || TagAt(s, i).NotTag? {
      CoverSurvives(s, known, markers, i + 1, w, start, end);
    } else {
      StopStaysGood(s, known, w, i, markers);
      CoverStays(s, known, w, i, markers, start, end);
      CoverSurvives(s, known, markers, TagAt(s, i).tagEnd, Stop(s, known, w, i, TagAt(s, i), markers), start, end);
    }
  }

  /** The walk as it stands on reaching p, when p is a place it stops at. */
  ghost function WalkTo(s: string, known: string -> bool, markers: bool, i: nat, w: Walk, p: nat): Option<Walk>
    requires i <= |s|
    decreases |s| - i
  {
    if i == p then Some(w)
    else if i > p || i == |s| then None
    else if s[i] != '<' || TagAt(s, i).NotTag? then WalkTo(s, known, markers, i + 1, w, p)
    else WalkTo(s, known, markers, TagAt(s, i).tagEnd, Stop(s, known, w, i, TagAt(s, i), markers), p)
  }

  /** The range the tag at p owes protection to, given the tags then open: itself when
      it is self-closing or markers are protected, the whole region when it closes an
      open tag, nothing when it is an orphan close or an open tag awaiting its close. */
  ghost function Owes(w: Walk, p: nat, t: Tag, name: string, markers: bool): Option<(nat, nat)>
    requires !t.NotTag?
  {
    if t.OpenTag? then if t.selfClosing || markers then Some((p, t.tagEnd)) else None
    else
      var k := TopOf(w.stack, name);
      if k == |w.stack| then None
      else Some((if markers then p else w.stack[k].start, t.tagEnd))
  }

  lemma {:induction false} StopPays(s: string, known: string -> bool, w: Walk, i: nat, markers: bool)
    requires Custom(s, known, i)
    ensures var owed := Owes(w, i, TagAt(s, i), NameOf(s, TagAt(s, i)), markers);
            owed.Some? ==> Covered(Stop(s, known, w, i, TagAt(s, i), markers).spans, owed.value.0, owed.value.1)
  {
    var owed := Owes(w, i, TagAt(s, i), NameOf(s, TagAt(s, i)), markers);
    var out := Stop(s, known, w, i, TagAt(s, i), markers).spans;
    if owed.Some? {
      assert out[|out| - 1].start == owed.value.0 && out[|out| - 1].end == owed.value.1;
    }
  }

  /** Nothing the walk meets escapes protection: what each custom tag owes is covered,
      by its own span or by an enclosing block, when the walk ends. */
  lemma {:induction false} VisitedIsProtected(s: string, known: string -> bool, markers: bool, i: nat, w: Walk, p: nat)
    requires GoodWalk(s, w, i, markers) && Custom(s, known, p) && WalkTo(s, known, markers, i, w, p).Some?
    ensures var owed := Owes(WalkTo(s, known, markers, i, w, p).value, p, TagAt(s, p), NameOf(s, TagAt(s, p)), markers);
            owed.Some? ==> Covered(WalkFrom(s, known, markers, i, w).spans, owed.value.0, owed.value.1)
    decreases |s| - i
  {
    if i == p {
      StopPays(s, known, w, p, markers);
      StopStaysGood(s, known, w, p, markers);
      var owed := Owes(w, p, TagAt(s, p), NameOf(s, TagAt(s, p)), markers);
      if owed.Some? {
        CoverSurvives(s, known, markers, TagAt(s, p).tagEnd, Stop(s, known, w, p, TagAt(s, p), markers), owed.value.0,
                      owed.value.1);
      }
    } else if s[i] != '<' || TagAt(s, i).NotTag? {
      VisitedIsProtected(s, known, markers, i + 1, w, p);
    } else {
      StopStaysGood(s, known, w, i, markers);
      VisitedIsProtected(s, known, markers, TagAt(s, i).tagEnd, Stop(s, known, w, i, TagAt(s, i), markers), p);
    }
  }

  // ---- emission ----

  /** Spans as the walk leaves them: within the text, ascending, bracketed. */
  ghost predicate Cut(text: string, spans: seq<Span>) { GoodSpans(text, spans, |text|) && Ordered(spans) }

  ghost function GapStart(text: string, spans: seq<Span>, k: nat): (c: nat)
    requires Cut(text, spans) && k <= |spans|
    ensures c <= |text| && (k < |spans| ==> c <= spans[k].start)
  {
    if k == 0 then 0 else spans[k - 1].end
  }

  ghost function Gap(text: string, spans: seq<Span>, k: nat): string
    requires Cut(text, spans) && k <= |spans|
  {
    if k == |spans| then text[GapStart(text, spans, k)..] else text[GapStart(text, spans, k)..spans[k].start]
  }

  ghost function GapsOf(text: string, spans: seq<Span>): (r: seq<string>)
    requires Cut(text, spans)
    ensures |r| == |spans| + 1
  {
    seq(|spans| + 1, k requires 0 <= k <= |spans| => Gap(text, spans, k))
  }

  ghost function BlocksOf(text: string, spans: seq<Span>, prefix: string): (r: seq<Block>)
    requires Cut(text, spans)
    ensures |r| == |spans|
    ensures forall i :: 0 <= i < |r| ==> r[i].placeholder == Placeholder(prefix, i) && |r[i].placeholder| > 0
  {
    seq(|spans|, i requires 0 <= i < |spans| => Block(Placeholder(prefix, i), text[spans[i].start..spans[i].end]))
  }

  lemma {:induction false} BlocksAreIssued(text: string, spans: seq<Span>, prefix: string)
    requires Cut(text, spans) && GoodPrefix(prefix)
    ensures Issued(prefix, BlocksOf(text, spans, prefix))
  {
    var blocks := BlocksOf(text, spans, prefix);
    forall i | 0 <= i < |blocks| ensures Region(blocks[i].original) {
      assert GoodSpan(text, spans[i], |text|);
    }
  }

  lemma {:induction false} WeaveStep(gaps: seq<string>, fills: seq<string>, k: nat)
    requires |gaps| == |fills| + 1 && k < |fills|
    ensures Weave(gaps[k..], fills[k..]) == gaps[k] + (fills[k] + Weave(gaps[k + 1..], fills[k + 1..]))
  {
    assert gaps[k..][1..] == gaps[k + 1..] && fills[k..][1..] == fills[k + 1..];
  }

  lemma {:induction false} ThreeParts(text: string, c: nat, i: nat, j: nat)
    requires c <= i <= j <= |text|
    ensures text[c..] == text[c..i] + (text[i..j] + text[j..])
  {
  }

  /** The gaps and the regions, interleaved, are the text. */
  lemma {:induction false} GapsAndRegions(text: string, spans: seq<Span>, prefix: string, k: nat)
    requires Cut(text, spans) && k <= |spans|
    ensures Weave(GapsOf(text, spans)[k..], Originals(BlocksOf(text, spans, prefix))[k..])
         == text[GapStart(text, spans, k)..]
    decreases |spans| - k
  {
    var gaps, fills := GapsOf(text, spans), Originals(BlocksOf(text, spans, prefix));
    if k == |spans| {
      assert fills[k..] == [] && gaps[k..] == [gaps[k]];
    } else {
      GapsAndRegions(text, spans, prefix, k + 1);
      WeaveStep(gaps, fills, k);
      assert GoodSpan(text, spans[k], |text|);
      ThreeParts(text, GapStart(text, spans, k), spans[k].start, spans[k].end);
    }
  }

  method Emit(text: string, spans: seq<Span>, prefix: string) returns (out: string, blocks: seq<Block>)
    requires Cut(text, spans)
    ensures blocks == BlocksOf(text, spans, prefix)
    ensures out == Weave(GapsOf(text, spans), Placeholders(blocks))
  {
    out := "";
    blocks := [];
    var cursor := 0;
    ghost var gaps, fills := GapsOf(text, spans), Placeholders(BlocksOf(text, spans, prefix));
    assert gaps[0..] == gaps && fills[0..] == fills;
    for counter := 0 to |spans|
      invariant cursor == GapStart(text, spans, counter)
      invariant blocks == BlocksOf(text, spans, prefix)[..counter]
      invariant out + Weave(gaps[counter..], fills[counter..]) == Weave(gaps, fills)
    {
      var p := spans[counter];
      WeaveStep(gaps, fills, counter);
      FourParts(out, gaps[counter], fills[counter], Weave(gaps[counter + 1..], fills[counter + 1..]));
      assert GoodSpan(text, p, |text|);
      assert gaps[counter] == text[cursor..p.start];
      out := out + text[cursor..p.start];
      var placeholder := prefix + Itoa(counter) + SUFFIX;
      blocks := blocks + [Block(placeholder, text[p.start..p.end])];
      out := out + placeholder;
      cursor := p.end;
    }
    assert fills[|spans|..] == [] && gaps[|spans|..] == [gaps[|spans|]];
    out := out + text[cursor..];
    assert blocks == BlocksOf(text, spans, prefix);
  }

  /** The in-place filter that drops the spans a block swallows. */
  method DropSwallowed(spans: seq<Span>, bound: nat) returns (kept: seq<Span>)
    ensures kept == StartingBefore(spans, bound)
  {
    kept := [];
    for a := 0 to |spans|
      invariant kept == StartingBefore(spans[..a], bound)
    {
      assert spans[..a + 1][..a] == spans[..a];
      if spans[a].start < bound {
        kept := kept + [spans[a]];
      }
    }
    assert spans[..|spans|] == spans;
  }

  /** The topmost open tag of that name, if any. */
  method FindOpen(stack: seq<Opened>, name: string) returns (matchIdx: int)
    ensures matchIdx == if TopOf(stack, name) == |stack| then -1 else TopOf(stack, name)
  {
    matchIdx := -1;
    var k := |stack| - 1;
    while k >= 0
      invariant -1 <= k < |stack|
      invariant forall a :: k < a < |stack| ==> stack[a].name != name
    {
      if stack[k].name == name {
        return k;
      }
      k := k - 1;
    }
  }

  method CollectSpans(text: string, known: string -> bool, markers: bool) returns (spans: seq<Span>)
    ensures spans == SpansOf(text, known, markers)
  {
    spans := [];
    var stack: seq<Opened> := [];
    var n := |text|;
    var i := 0;
    while i < n
      invariant 0 <= i <= n
      invariant WalkFrom(text, known, markers, i, Walk(spans, stack)).spans == SpansOf(text, known, markers)
      decreases n - i
    {
      if text[i] != '<' {
        i := i + 1;
        continue;
      }
      var tag := ParseTagAt(text, i);
      if tag.NotTag? {
        i := i + 1;
        continue;
      }
      var name := NameOf(text, tag);
      if known(name) {
        i := tag.tagEnd;
        continue;
      }
      spans, stack := VisitTag(spans, stack, i, tag, name, markers);
      i := tag.tagEnd;
    }
  }

  method VisitTag(spans: seq<Span>, stack: seq<Opened>, i: nat, tag: Tag, name: string, markers: bool)
    returns (spans': seq<Span>, stack': seq<Opened>)
    requires !tag.NotTag?
    ensures Walk(spans', stack') == Visit(Walk(spans, stack), i, tag, name, markers)
  {
    spans', stack' := spans, stack;
    if tag.OpenTag? {
      if tag.selfClosing {
        spans' := spans + [Span(i, tag.tagEnd, SelfClosing)];
      } else if markers {
        spans' := spans + [Span(i, tag.tagEnd, OpenMarker)];
        stack' := stack + [Opened(name, i)];
      } else {
        stack' := stack + [Opened(name, i)];
      }
    } else {
      var matchIdx := FindOpen(stack, name);
      if matchIdx < 0 {
        return;
      }
      var matched := stack[matchIdx];
      stack' := stack[..matchIdx];
      if markers {
        spans' := spans + [Span(i, tag.tagEnd, CloseMarker)];
      } else {
        spans' := DropSwallowed(spans, matched.start);
        spans' := spans' + [Span(matched.start, tag.tagEnd, BlockSpan)];
      }
    }
  }

  /** Protecting and its result: the text with each span's region replaced by a
      numbered placeholder, and the regions in order. */
  ghost function ProtectedBlocks(text: string, known: string -> bool, markers: bool): (r: seq<Block>)
    requires Cut(text, SpansOf(text, known, markers))
    ensures forall i :: 0 <= i < |r| ==> |r[i].placeholder| > 0
  {
    BlocksOf(text, SpansOf(text, known, markers), PrefixOf(text))
  }

  method ProtectTags(text: string, known: string -> bool, markers: bool) returns (out: string, blocks: seq<Block>)
    ensures Cut(text, SpansOf(text, known, markers))
    ensures blocks == ProtectedBlocks(text, known, markers) && Issued(PrefixOf(text), blocks)
    ensures out == Weave(GapsOf(text, SpansOf(text, known, markers)), Placeholders(blocks))
    ensures text == Weave(GapsOf(text, SpansOf(text, known, markers)), Originals(blocks))
  {
    SpansAreGood(text, known, markers);
    PrefixIsAbsent(text);
    ghost var spans0 := SpansOf(text, known, markers);
    BlocksAreIssued(text, spans0, PrefixOf(text));
    GapsAndRegions(text, spans0, PrefixOf(text), 0);
    ghost var gaps, originals := GapsOf(text, spans0), Originals(BlocksOf(text, spans0, PrefixOf(text)));
    assert gaps[0..] == gaps && originals[0..] == originals && text[0..] == text;
    if text == "" || '<' !in text {
      NoAngleNoSpans(text, known, markers, 0, Walk([], []));
      EmptyCut(text, PrefixOf(text));
      return text, [];
    }
    var prefix, avoided := ChoosePrefix(text);
    var spans := CollectSpans(text, known, markers);
    if |spans| == 0 {
      EmptyCut(text, prefix);
      return text, [];
    }
    out, blocks := Emit(text, spans, prefix);
  }

  lemma {:induction false} EmptyCut(text: string, prefix: string)
    ensures BlocksOf(text, [], prefix) == [] && GapsOf(text, []) == [text]
  {
    assert text[0..] == text;
  }

  lemma {:induction false} NoAngleNoSpans(text: string, known: string -> bool, markers: bool, i: nat, w: Walk)
    requires i <= |text| && '<' !in text[i..]
    ensures WalkFrom(text, known, markers, i, w) == w
    decreases |text| - i
  {
    if i < |text| {
      assert text[i] == text[i..][0] && text[i + 1..] == text[i..][1..];
      NoAngleNoSpans(text, known, markers, i + 1, w);
    }
  }

  // ---- protect, then restore ----

  /** With no edit in between, restoring gives the text back if and only if no text
      between tags holds an issued placeholder and no region holds a later one. */
  lemma {:induction false} RoundTripIff(text: string, known: string -> bool, markers: bool)
    ensures Cut(text, SpansOf(text, known, markers))
    ensures var blocks := ProtectedBlocks(text, known, markers);
            var gaps := GapsOf(text, SpansOf(text, known, markers));
            Restored(Weave(gaps, Placeholders(blocks)), blocks, |blocks|) == text <==> Unambiguous(gaps, blocks)
  {
    SpansAreGood(text, known, markers);
    var spans := SpansOf(text, known, markers);
    var prefix := PrefixOf(text);
    var blocks := BlocksOf(text, spans, prefix);
    PrefixIsAbsent(text);
    BlocksAreIssued(text, spans, prefix);
    GapsAndRegions(text, spans, prefix, 0);
    assert GapsOf(text, spans)[0..] == GapsOf(text, spans) && Originals(blocks)[0..] == Originals(blocks)
        && text[0..] == text;
    RestoreInvertsIff(prefix, GapsOf(text, spans), blocks);
  }

  lemma {:induction false} OccursInWhole(text: string, i: nat, j: nat, p: nat, sub: string)
    requires i <= j <= |text| && OccursAt(text[i..j], p, sub)
    ensures OccursAt(text, i + p, sub)
  {
    forall k | 0 <= k < |sub| ensures text[i + p + k] == sub[k] {
      CharOf(text[i..j], p, sub, k);
    }
  }

  lemma {:induction false} SliceHasNoMore(text: string, i: nat, j: nat, sub: string)
    requires i <= j <= |text|
    ensures Contains(text[i..j], sub) ==> Contains(text, sub)
  {
    ContainsIffOccurs(text, sub);
    ContainsIffOccurs(text[i..j], sub);
    if Contains(text[i..j], sub) {
      var p: nat :| OccursAt(text[i..j], p, sub);
      OccursInWhole(text, i, j, p, sub);
    }
  }

  /** The documented promise, in either mode: unless the text names all seventeen
      prefixes, whatever prefix-free texts replace those between the placeholders,
      restoring interleaves them with the original regions. */
  lemma {:induction false} EditedRoundTrip(text: string, known: string -> bool, markers: bool, edited: seq<string>)
    requires !Exhausts(text)
    requires |edited| == |SpansOf(text, known, markers)| + 1
    requires forall k :: 0 <= k < |edited| ==> !Contains(edited[k], PrefixOf(text))
    ensures Cut(text, SpansOf(text, known, markers))
    ensures var blocks := ProtectedBlocks(text, known, markers);
            Restored(Weave(edited, Placeholders(blocks)), blocks, |blocks|) == Weave(edited, Originals(blocks))
  {
    SpansAreGood(text, known, markers);
    var spans := SpansOf(text, known, markers);
    var prefix := PrefixOf(text);
    var blocks := BlocksOf(text, spans, prefix);
    PrefixIsAbsent(text);
    BlocksAreIssued(text, spans, prefix);
    forall i | 0 <= i < |blocks| ensures !Contains(blocks[i].original, prefix) {
      assert GoodSpan(text, spans[i], |text|);
      SliceHasNoMore(text, spans[i].start, spans[i].end, prefix);
    }
    PrefixFreeRoundTrip(prefix, edited, blocks);
  }

  lemma {:induction false} RoundTrip(text: string, known: string -> bool, markers: bool)
    requires !Exhausts(text)
    ensures Cut(text, SpansOf(text, known, markers))
    ensures var blocks := ProtectedBlocks(text, known, markers);
            Restored(Weave(GapsOf(text, SpansOf(text, known, markers)), Placeholders(blocks)), blocks, |blocks|) == text
  {
    SpansAreGood(text, known, markers);
    var spans := SpansOf(text, known, markers);
    var prefix := PrefixOf(text);
    var gaps, originals := GapsOf(text, spans), Originals(BlocksOf(text, spans, prefix));
    PrefixIsAbsent(text);
    forall k | 0 <= k < |gaps| ensures !Contains(gaps[k], prefix) {
      var c := GapStart(text, spans, k);
      SliceHasNoMore(text, c, if k == |spans| then |text| else spans[k].start, prefix);
      assert text[c..] == text[c..|text|];
    }
    EditedRoundTrip(text, known, markers, gaps);
    GapsAndRegions(text, spans, prefix, 0);
    assert gaps[0..] == gaps && originals[0..] == originals && text[0..] == text;
  }

  // ---- the round trip can fail when every prefix is taken ----

  ghost function AllOf(f: nat -> string, n: nat): string { if n == 0 then [] else AllOf(f, n - 1) + f(n - 1) }

  lemma {:induction false} HoldsPart(a: string, sub: string, b: string)
    ensures Contains(a + (sub + b), sub)
  {
    ContainsIffOccurs(a + (sub + b), sub);
    assert OccursAt(a + (sub + b), |a|, sub);
  }

  lemma {:induction false} GrowsRight(a: string, b: string, sub: string)
    requires Contains(a, sub)
    ensures Contains(a + b, sub)
  {
    assert (a + b)[0..|a|] == a;
    SliceHasNoMore(a + b, 0, |a|, sub);
  }

  lemma {:induction false} GrowsLeft(a: string, b: string, sub: string)
    requires Contains(b, sub)
    ensures Contains(a + b, sub)
  {
    assert (a + b)[|a|..|a + b|] == b;
    SliceHasNoMore(a + b, |a|, |a + b|, sub);
  }

  lemma {:induction false} AllAreHeld(f: nat -> string, n: nat, k: nat)
    requires k < n
    ensures Contains(AllOf(f, n), f(k))
    decreases n
  {
    if k == n - 1 {
      assert f(k) + "" == f(k);
      HoldsPart(AllOf(f, k), f(k), "");
    } else {
      AllAreHeld(f, n - 1, k);
      GrowsRight(AllOf(f, n - 1), f(n - 1), f(k));
    }
  }

  lemma {:induction false} NoneHasIt(f: nat -> string, n: nat, c: char)
    requires forall k: nat :: k < n ==> c !in f(k)
    ensures c !in AllOf(f, n)
  {
    if n > 0 {
      NoneHasIt(f, n - 1, c);
    }
  }

  lemma {:induction false} SelfClosingX(s: string)
    requires |s| >= 4 && s[0] == '<' && s[1] == 'x' && s[2] == '/' && s[3] == '>'
    ensures TagAt(s, 0) == OpenTag(1, 2, 4, true) && NameOf(s, TagAt(s, 0)) == "x"
  {
    assert NameEnd(s, 1) == 2;
    assert AttrsEnd(s, 2) == Some((4, true));
    assert s[1..2] == ['x'];
    assert ToLower(['x']) == ['x'] + ToLower([]);
  }

  lemma {:induction false} OneSpan(s: string, known: string -> bool, markers: bool)
    requires |s| >= 4 && s[0] == '<' && s[1] == 'x' && s[2] == '/' && s[3] == '>' && '<' !in s[4..] && !known("x")
    ensures SpansOf(s, known, markers) == [Span(0, 4, SelfClosing)]
  {
    SelfClosingX(s);
    var one := Walk([Span(0, 4, SelfClosing)], []);
    assert Stop(s, known, Walk([], []), 0, TagAt(s, 0), markers) == one;
    NoAngleNoSpans(s, known, markers, 4, one);
    assert WalkFrom(s, known, markers, 0, Walk([], [])) == WalkFrom(s, known, markers, 4, one);
  }

  /** A self-closing custom tag, then text that names every prefix and ph. */
  ghost predicate Crowded(s: string, ph: string) {
    && |s| >= 4 && s[0] == '<' && s[1] == 'x' && s[2] == '/' && s[3] == '>' && '<' !in s[4..]
    && Exhausts(s) && Contains(s[4..], ph)
  }

  /** Outside !Exhausts the promise is false: a text that also names the placeholder
      the fallback issues does not come back. */
  lemma {:induction false} CrowdedIsNotRestored(s: string, known: string -> bool, markers: bool)
    requires Crowded(s, Placeholder(FALLBACK_PREFIX, 0)) && !known("x")
    ensures Cut(s, SpansOf(s, known, markers))
    ensures var blocks := ProtectedBlocks(s, known, markers);
            Restored(Weave(GapsOf(s, SpansOf(s, known, markers)), Placeholders(blocks)), blocks, |blocks|) != s
  {
    PrefixIsAbsent(s);
    OneSpan(s, known, markers);
    RoundTripIff(s, known, markers);
    assert GapsOf(s, [Span(0, 4, SelfClosing)])[1] == s[4..];
  }

  ghost function Crowd(): string { AllOf(SaltedPrefix, SALT_ATTEMPTS) }

  lemma {:induction false} CrowdHasAll(k: nat)
    requires k < SALT_ATTEMPTS
    ensures Contains(Crowd(), SaltedPrefix(k)) && '<' !in Crowd()
  {
    AllAreHeld(SaltedPrefix, SALT_ATTEMPTS, k);
    forall i: nat | i < SALT_ATTEMPTS ensures '<' !in SaltedPrefix(i) {
      AllPrefixesAreGood(i);
    }
    NoneHasIt(SaltedPrefix, SALT_ATTEMPTS, '<');
  }

  lemma {:induction false} SaltedIsLonger(k: nat) returns (rest: string)
    ensures SaltedPrefix(k) == DEFAULT_PREFIX + rest
  {
    rest := Itoa(k) + "_";
    SeqAssoc(DEFAULT_PREFIX, Itoa(k), "_");
  }

  lemma {:induction false} HeadedExhausts(head: string, tail: string)
    ensures Exhausts(head + (Crowd() + tail))
  {
    var s := head + (Crowd() + tail);
    forall k | 0 <= k < SALT_ATTEMPTS ensures Contains(s, SaltedPrefix(k)) {
      CrowdHasAll(k);
      GrowsRight(Crowd(), tail, SaltedPrefix(k));
      GrowsLeft(head, Crowd() + tail, SaltedPrefix(k));
    }
    var rest := SaltedIsLonger(0);
    ContainsFront(s, DEFAULT_PREFIX, rest);
  }

  lemma {:induction false} FallbackHasNoAngle() returns (ph: string)
    ensures ph == Placeholder(FALLBACK_PREFIX, 0) && '<' !in ph
  {
    ph := Placeholder(FALLBACK_PREFIX, 0);
    AllPrefixesAreGood(0);
    PlaceholderShaped(FALLBACK_PREFIX, 0);
  }

  lemma {:induction false} HeadAndTail(a: string, b: string)
    ensures (a + b)[|a|..] == b && a <= a + b
  {
  }

  lemma {:induction false} CrowdAround(ph: string) returns (s: string)
    requires '<' !in ph
    ensures Crowded(s, ph)
  {
    var head, tail := ['<', 'x', '/', '>'], Crowd() + ph;
    s := head + tail;
    HeadedExhausts(head, ph);
    HeadAndTail(head, tail);
    CrowdHasAll(0);
    GrowsLeft(Crowd(), ph, ph);
  }

  /** Such a text exists. */
  lemma {:induction false} CrowdedExists() returns (s: string)
    ensures Crowded(s, Placeholder(FALLBACK_PREFIX, 0))
  {
    var ph := FallbackHasNoAngle();
    s := CrowdAround(ph);
  }
}
