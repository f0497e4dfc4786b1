/** Which regions are protected, said without the stack:
    the walk of ProtectTags in internal/tagprotect/tagprotect.go. */
module TagMatch {

  import opened Common
  import opened TagLex
  import opened TagProtect

  // ---- the tags the walk meets ----

  datatype Kind = Opening | Closing | Lone

  /** One custom tag: where it stands, and its name. */
  datatype Event = Event(start: nat, end: nat, name: string, kind: Kind)

  ghost function EventAt(s: string, i: nat): Event
    requires i < |s| && !TagAt(s, i).NotTag?
  {
    var t := TagAt(s, i);
    Event(i, t.tagEnd, NameOf(s, t), if t.CloseTag? then Closing else if t.selfClosing then Lone else Opening)
  }

  ghost function MetFrom(s: string, known: string -> bool, i: nat): seq<Event>
    requires i <= |s|
    decreases |s| - i
  {
    if i == |s| then []
    else if s[i] != '<' || TagAt(s, i).NotTag? then MetFrom(s, known, i + 1)
    else (if known(NameOf(s, TagAt(s, i))) then [] else [EventAt(s, i)]) + MetFrom(s, known, TagAt(s, i).tagEnd)
  }

  /** The custom tags of a text, in order. */
  ghost function Met(s: string, known: string -> bool): seq<Event> { MetFrom(s, known, 0) }

  /** A tag opens at p, and p is not inside a tag that opened before. */
  ghost predicate Stands(s: string, p: nat) {
    p < |s| && s[p] == '<' && !TagAt(s, p).NotTag? && forall q: nat :: q < p && Stands(s, q) ==> TagAt(s, q).tagEnd <= p
  }

  ghost predicate ClearAt(s: string, i: nat) {
    i <= |s| && forall q: nat :: q < i && Stands(s, q) ==> TagAt(s, q).tagEnd <= i
  }

  /** e is a custom tag standing at i or later. */
  ghost predicate StandsFrom(s: string, known: string -> bool, i: nat, e: Event) {
    exists p: nat :: i <= p && IsTagAt(s, known, p, e)
  }

  ghost predicate IsTagAt(s: string, known: string -> bool, p: nat, e: Event) {
    Stands(s, p) && !known(NameOf(s, TagAt(s, p))) && e == EventAt(s, p)
  }

  /** Nothing stands strictly between i and next. */
  lemma {:induction false} StandsFromNext(s: string, known: string -> bool, i: nat, next: nat, e: Event)
    requires i < next && forall q: nat :: i < q < next ==> !Stands(s, q)
    ensures StandsFrom(s, known, i, e) <==> IsTagAt(s, known, i, e) || StandsFrom(s, known, next, e)
  {
    if StandsFrom(s, known, i, e) {
      var p: nat :| i <= p && IsTagAt(s, known, p, e);
      assert p == i || next <= p;
    }
  }

  lemma {:induction false} MetFromIs(s: string, known: string -> bool, i: nat, e: Event)
    requires ClearAt(s, i)
    ensures e in MetFrom(s, known, i) <==> StandsFrom(s, known, i, e)
    decreases |s| - i
  {
    if i == |s| {
    } else if s[i] != '<' || TagAt(s, i).NotTag? {
      assert !Stands(s, i);
      StandsFromNext(s, known, i, i + 1, e);
      MetFromIs(s, known, i + 1, e);
    } else {
      TagIsMet(s, i);
      StandsFromNext(s, known, i, TagAt(s, i).tagEnd, e);
      MetFromIs(s, known, TagAt(s, i).tagEnd, e);
    }
  }

  lemma {:induction false} TagIsMet(s: string, i: nat)
    requires ClearAt(s, i) && i < |s| && s[i] == '<' && !TagAt(s, i).NotTag?
    ensures Stands(s, i) && ClearAt(s, TagAt(s, i).tagEnd)
    ensures forall q: nat :: i < q < TagAt(s, i).tagEnd ==> !Stands(s, q)
  {
  }

  /** The custom tags are those the lexer finds outside every earlier tag, known ones
      included. */
  lemma {:induction false} MetIff(s: string, known: string -> bool, e: Event)
    ensures e in Met(s, known) <==> exists p: nat :: IsTagAt(s, known, p, e)
  {
    MetFromIs(s, known, 0, e);
  }

  ghost predicate InOrder(E: seq<Event>, from: nat) {
    && (forall i :: 0 <= i < |E| ==> from <= E[i].start < E[i].end)
    && (forall i, j :: 0 <= i < j < |E| ==> E[i].end <= E[j].start)
  }

  lemma {:induction false} MetInOrder(s: string, known: string -> bool, i: nat)
    requires i <= |s|
    ensures InOrder(MetFrom(s, known, i), i)
    decreases |s| - i
  {
    if i == |s| {
    } else if s[i] != '<' || TagAt(s, i).NotTag? {
      MetInOrder(s, known, i + 1);
    } else {
      MetInOrder(s, known, TagAt(s, i).tagEnd);
    }
  }

  // ---- the walk, tag by tag ----

  ghost function TagOf(e: Event): Tag {
    if e.kind == Closing then CloseTag(0, 0, e.end) else OpenTag(0, 0, e.end, e.kind == Lone)
  }

  ghost function Walked(E: seq<Event>, markers: bool, w: Walk): Walk {
    if E == [] then w else Walked(E[1..], markers, Visit(w, E[0].start, TagOf(E[0]), E[0].name, markers))
  }

  lemma {:induction false} WalkedFirst(e: Event, rest: seq<Event>, markers: bool, w: Walk)
    ensures Walked([e] + rest, markers, w) == Walked(rest, markers, Visit(w, e.start, TagOf(e), e.name, markers))
  {
    assert ([e] + rest)[1..] == rest;
  }

  lemma {:induction false} VisitIsEvent(s: string, w: Walk, i: nat, markers: bool)
    requires i < |s| && !TagAt(s, i).NotTag?
    ensures var e := EventAt(s, i);
            Visit(w, i, TagAt(s, i), NameOf(s, TagAt(s, i)), markers)
              == Visit(w, e.start, TagOf(e), e.name, markers)
  {
  }

  lemma {:induction false} WalkIsWalked(s: string, known: string -> bool, markers: bool, i: nat, w: Walk)
    requires i <= |s|
    ensures WalkFrom(s, known, markers, i, w) == Walked(MetFrom(s, known, i), markers, w)
    decreases |s| - i
  {
    if i == |s| {
    } else if s[i] != '<' || TagAt(s, i).NotTag? {
      WalkIsWalked(s, known, markers, i + 1, w);
    } else {
      WalkStop(s, known, markers, i, w);
      WalkIsWalked(s, known, markers, TagAt(s, i).tagEnd, Stop(s, known, w, i, TagAt(s, i), markers));
    }
  }

  lemma {:induction false} WalkStop(s: string, known: string -> bool, markers: bool, i: nat, w: Walk)
    requires i < |s| && s[i] == '<' && !TagAt(s, i).NotTag?
    ensures Walked(MetFrom(s, known, i), markers, w)
         == Walked(MetFrom(s, known, TagAt(s, i).tagEnd), markers, Stop(s, known, w, i, TagAt(s, i), markers))
  {
    var rest := MetFrom(s, known, TagAt(s, i).tagEnd);
    if known(NameOf(s, TagAt(s, i))) {
      assert [] + rest == rest;
    } else {
      VisitIsEvent(s, w, i, markers);
      WalkedFirst(EventAt(s, i), rest, markers, w);
    }
  }

  // ---- which close tag ends which open tag ----

  /** The open tag that c closes: the last one of its name that is still open. */
  ghost function MatchOf(E: seq<Event>, c: nat): (a: Option<nat>)
    requires c < |E|
    ensures a.Some? ==> a.value < c && E[a.value].kind == Opening && E[a.value].name == E[c].name
    ensures a.Some? ==> E[c].kind == Closing && StillOpen(E, a.value, c)
    decreases c, 2, 0
  {
    if E[c].kind == Closing then LastOpen(E, c, c) else None
  }

  /** No close tag between a and c ended a or an open tag before it. */
  ghost predicate StillOpen(E: seq<Event>, a: nat, c: nat)
    requires c <= |E|
    decreases c, 0, 0
  {
    forall d: nat :: a < d < c ==> MatchOf(E, d).None? || MatchOf(E, d).value > a
  }

  ghost predicate Opens(E: seq<Event>, a: nat, c: nat)
    requires a < c < |E|
    decreases c, 1, 0
  {
    E[a].kind == Opening && E[a].name == E[c].name && StillOpen(E, a, c)
  }

  ghost function LastOpen(E: seq<Event>, c: nat, n: nat): (a: Option<nat>)
    requires n <= c < |E|
    ensures a.Some? ==> a.value < n && Opens(E, a.value, c)
    ensures forall b: nat :: (if a.Some? then a.value else -1) < b < n ==> !Opens(E, b, c)
    decreases c, 1, n + 1
  {
    if n == 0 then None else if Opens(E, n - 1, c) then Some(n - 1) else LastOpen(E, c, n - 1)
  }

  lemma {:induction false} StillOpenNext(E: seq<Event>, a: nat, c: nat)
    requires a <= c < |E|
    ensures StillOpen(E, a, c + 1)
       <==> a == c || (StillOpen(E, a, c) && (MatchOf(E, c).None? || MatchOf(E, c).value > a))
  {
    if a < c && StillOpen(E, a, c + 1) {
      assert forall d: nat :: a < d < c ==> MatchOf(E, d).None? || MatchOf(E, d).value > a;
    }
  }

  /** The stack before event n holds exactly the open tags still open, oldest first. */
  ghost predicate Mirrors(E: seq<Event>, n: nat, stack: seq<Opened>, idx: seq<nat>)
    requires n <= |E|
  {
    && |idx| == |stack|
    && (forall k :: 0 <= k < |idx| ==> idx[k] < n && stack[k] == Opened(E[idx[k]].name, E[idx[k]].start))
    && (forall j, k :: 0 <= j < k < |idx| ==> idx[j] < idx[k])
    && (forall a: nat :: a in idx <==> a < n && E[a].kind == Opening && StillOpen(E, a, n))
  }

  /** The stack search finds the matching open tag. */
  lemma {:induction false} TopIsMatch(E: seq<Event>, n: nat, stack: seq<Opened>, idx: seq<nat>)
    requires n < |E| && E[n].kind == Closing && Mirrors(E, n, stack, idx)
    ensures var k := TopOf(stack, E[n].name);
            if k == |stack| then MatchOf(E, n).None? else MatchOf(E, n) == Some(idx[k])
  {
    var k, m := TopOf(stack, E[n].name), MatchOf(E, n);
    if m.Some? {
      assert m.value in idx;
      var j :| 0 <= j < |idx| && idx[j] == m.value;
      assert stack[j].name == E[n].name;
      assert k < |stack| && j <= k;
    }
    if k < |stack| {
      assert idx[k] in idx && Opens(E, idx[k], n);
    }
  }

  lemma {:induction false} PushMirrors(E: seq<Event>, n: nat, stack: seq<Opened>, idx: seq<nat>)
    requires n < |E| && E[n].kind == Opening && Mirrors(E, n, stack, idx)
    ensures Mirrors(E, n + 1, stack + [Opened(E[n].name, E[n].start)], idx + [n])
  {
    forall a: nat | a <= n ensures StillOpen(E, a, n + 1) <==> a == n || StillOpen(E, a, n) {
      StillOpenNext(E, a, n);
    }
    forall a: nat ensures a in idx + [n] <==> a < n + 1 && E[a].kind == Opening && StillOpen(E, a, n + 1) {
      assert a in idx + [n] <==> a in idx || a == n;
    }
  }

  lemma {:induction false} SkipMirrors(E: seq<Event>, n: nat, stack: seq<Opened>, idx: seq<nat>)
    requires n < |E| && E[n].kind != Opening && MatchOf(E, n).None? && Mirrors(E, n, stack, idx)
    ensures Mirrors(E, n + 1, stack, idx)
  {
    forall a: nat | a <= n ensures StillOpen(E, a, n + 1) <==> a == n || StillOpen(E, a, n) {
      StillOpenNext(E, a, n);
    }
  }

  lemma {:induction false} PrefixMembers(idx: seq<nat>, k: nat, a: nat)
    requires k < |idx| && forall i, j :: 0 <= i < j < |idx| ==> idx[i] < idx[j]
    ensures a in idx[..k] <==> a in idx && a < idx[k]
  {
    if a in idx && a < idx[k] {
      var j :| 0 <= j < |idx| && idx[j] == a;
      assert j < k && idx[..k][j] == a;
    }
  }

  lemma {:induction false} PopMirrors(E: seq<Event>, n: nat, stack: seq<Opened>, idx: seq<nat>, k: nat)
    requires n < |E| && Mirrors(E, n, stack, idx) && k < |idx| && MatchOf(E, n) == Some(idx[k])
    ensures Mirrors(E, n + 1, stack[..k], idx[..k])
  {
    forall a: nat ensures a in idx[..k] <==> a < n + 1 && E[a].kind == Opening && StillOpen(E, a, n + 1) {
      PrefixMembers(idx, k, a);
      if a <= n {
        StillOpenNext(E, a, n);
        assert a in idx <==> a < n && E[a].kind == Opening && StillOpen(E, a, n);
      }
    }
  }

  // ---- the regions ----

  /** What event n protects on its own account. */
  ghost function RegionOf(E: seq<Event>, n: nat, markers: bool): Option<Span>
    requires n < |E|
  {
    match E[n].kind
    case Lone => Some(Span(E[n].start, E[n].end, SelfClosing))
    case Opening => if markers then Some(Span(E[n].start, E[n].end, OpenMarker)) else None
    case Closing =>
      if MatchOf(E, n).None? then None
      else if markers then Some(Span(E[n].start, E[n].end, CloseMarker))
      else Some(Span(E[MatchOf(E, n).value].start, E[n].end, BlockSpan))
  }

  /** A later close tag, before event N, ends an open tag before n. */
  ghost predicate Swallowed(E: seq<Event>, n: nat, N: nat)
    requires n < N <= |E|
  {
    exists m: nat :: n < m < N && MatchOf(E, m).Some? && MatchOf(E, m).value < n
  }

  ghost predicate Shown(E: seq<Event>, p: Span, N: nat, markers: bool)
    requires N <= |E|
  {
    exists n: nat :: n < N && RegionOf(E, n, markers) == Some(p) && (markers || !Swallowed(E, n, N))
  }

  ghost predicate SpansAre(E: seq<Event>, spans: seq<Span>, N: nat, markers: bool)
    requires N <= |E|
  {
    forall p :: p in spans <==> Shown(E, p, N, markers)
  }

  lemma {:induction false} SwallowedNext(E: seq<Event>, n: nat, N: nat)
    requires n < N < |E|
    ensures Swallowed(E, n, N + 1) <==> Swallowed(E, n, N) || (MatchOf(E, N).Some? && MatchOf(E, N).value < n)
  {
    if Swallowed(E, n, N) {
      var m: nat :| n < m < N && MatchOf(E, m).Some? && MatchOf(E, m).value < n;
      assert m < N + 1;
    }
  }

  /** One more event that swallows nothing. */
  lemma {:induction false} ShownNext(E: seq<Event>, p: Span, N: nat, markers: bool)
    requires N < |E| && (markers || MatchOf(E, N).None?)
    ensures Shown(E, p, N + 1, markers) <==> Shown(E, p, N, markers) || RegionOf(E, N, markers) == Some(p)
  {
    forall n: nat | n < N ensures markers || (Swallowed(E, n, N + 1) <==> Swallowed(E, n, N)) {
      SwallowedNext(E, n, N);
    }
    if Shown(E, p, N, markers) {
      var n: nat :| n < N && RegionOf(E, n, markers) == Some(p) && (markers || !Swallowed(E, n, N));
      assert n < N + 1;
    }
    if RegionOf(E, N, markers) == Some(p) {
      assert !Swallowed(E, N, N + 1);
    }
  }

  /** In block mode a region that starts before the block stays, the others go. */
  lemma {:induction false} ShownBefore(E: seq<Event>, n: nat, N: nat)
    requires InOrder(E, 0) && n < N < |E| && MatchOf(E, N).Some? && RegionOf(E, n, false).Some?
    ensures MatchOf(E, N).value < n <==> E[MatchOf(E, N).value].start <= RegionOf(E, n, false).value.start
  {
    var a := MatchOf(E, N).value;
    if E[n].kind == Closing {
      var b := MatchOf(E, n).value;
      assert StillOpen(E, a, N);
      assert a < n ==> b > a;
      if a < b {
        assert E[a].end <= E[b].start;
      } else if b < a {
        assert E[b].end <= E[a].start;
      }
    } else if a < n {
      assert E[a].end <= E[n].start;
    } else if n < a {
      assert E[n].end <= E[a].start;
    }
  }

  lemma {:induction false} KeptMembers(spans: seq<Span>, bound: nat)
    ensures forall p :: p in StartingBefore(spans, bound) <==> p in spans && p.start < bound
  {
    if spans != [] {
      KeptMembers(spans[..|spans| - 1], bound);
    }
  }

  lemma {:induction false} BlockShown(E: seq<Event>, p: Span, N: nat)
    requires InOrder(E, 0) && N < |E| && MatchOf(E, N).Some?
    ensures Shown(E, p, N + 1, false)
       <==> (Shown(E, p, N, false) && p.start < E[MatchOf(E, N).value].start) || RegionOf(E, N, false) == Some(p)
  {
    forall n: nat | n < N && RegionOf(E, n, false) == Some(p)
      ensures Swallowed(E, n, N + 1) <==> Swallowed(E, n, N) || E[MatchOf(E, N).value].start <= p.start
    {
      SwallowedNext(E, n, N);
      ShownBefore(E, n, N);
    }
    if Shown(E, p, N, false) && p.start < E[MatchOf(E, N).value].start {
      var n: nat :| n < N && RegionOf(E, n, false) == Some(p) && !Swallowed(E, n, N);
      assert n < N + 1;
    }
    if RegionOf(E, N, false) == Some(p) {
      assert !Swallowed(E, N, N + 1);
    }
  }

  // ---- the walk keeps both ----

  ghost function Next(E: seq<Event>, n: nat, w: Walk, markers: bool): Walk
    requires n < |E|
  {
    Visit(w, E[n].start, TagOf(E[n]), E[n].name, markers)
  }

  lemma {:induction false} NextMirrors(E: seq<Event>, n: nat, w: Walk, idx: seq<nat>, markers: bool)
    returns (idx': seq<nat>)
    requires n < |E| && Mirrors(E, n, w.stack, idx)
    ensures Mirrors(E, n + 1, Next(E, n, w, markers).stack, idx')
  {
    idx' := idx;
    match E[n].kind
    case Opening =>
      PushMirrors(E, n, w.stack, idx);
      idx' := idx + [n];
    case Lone => SkipMirrors(E, n, w.stack, idx);
    case Closing =>
      TopIsMatch(E, n, w.stack, idx);
      var k := TopOf(w.stack, E[n].name);
      if k == |w.stack| {
        SkipMirrors(E, n, w.stack, idx);
      } else {
        PopMirrors(E, n, w.stack, idx, k);
        idx' := idx[..k];
      }
  }

  lemma {:induction false} Appended(spans: seq<Span>, p: Span)
    ensures forall q :: q in spans + [p] <==> q in spans || q == p
  {
  }

  lemma {:induction false} NextSpans(E: seq<Event>, n: nat, w: Walk, idx: seq<nat>, markers: bool)
    requires InOrder(E, 0) && n < |E| && Mirrors(E, n, w.stack, idx) && SpansAre(E, w.spans, n, markers)
    ensures SpansAre(E, Next(E, n, w, markers).spans, n + 1, markers)
  {
    var r := RegionOf(E, n, markers);
    if E[n].kind == Closing {
      TopIsMatch(E, n, w.stack, idx);
    }
    if MatchOf(E, n).Some? && !markers {
      var bound := E[MatchOf(E, n).value].start;
      var k := TopOf(w.stack, E[n].name);
      assert w.stack[k].start == bound;
      KeptMembers(w.spans, bound);
      Appended(StartingBefore(w.spans, bound), r.value);
      forall p { BlockShown(E, p, n); }
    } else {
      assert Next(E, n, w, markers).spans == if r.Some? then w.spans + [r.value] else w.spans;
      if r.Some? {
        Appended(w.spans, r.value);
      }
      forall p { ShownNext(E, p, n, markers); }
    }
  }

  lemma {:induction false} WalkedIs(E: seq<Event>, n: nat, w: Walk, idx: seq<nat>, markers: bool)
    requires InOrder(E, 0) && n <= |E| && Mirrors(E, n, w.stack, idx) && SpansAre(E, w.spans, n, markers)
    ensures SpansAre(E, Walked(E[n..], markers, w).spans, |E|, markers)
    decreases |E| - n
  {
    if n < |E| {
      assert E[n..][0] == E[n] && E[n..][1..] == E[n + 1..];
      NextSpans(E, n, w, idx, markers);
      var idx' := NextMirrors(E, n, w, idx, markers);
      WalkedIs(E, n + 1, Next(E, n, w, markers), idx', markers);
    }
  }

  lemma {:induction false} SpansShown(s: string, known: string -> bool, markers: bool)
    ensures InOrder(Met(s, known), 0)
    ensures SpansAre(Met(s, known), SpansOf(s, known, markers), |Met(s, known)|, markers)
  {
    var E := Met(s, known);
    WalkIsWalked(s, known, markers, 0, Walk([], []));
    MetInOrder(s, known, 0);
    assert E[0..] == E;
    WalkedIs(E, 0, Walk([], []), [], markers);
  }

  // ---- what is protected ----

  /** With markers, exactly the self-closing tags, the open tags, and the close tags
      that end one. */
  lemma {:induction false} MarkersAreExact(s: string, known: string -> bool, p: Span)
    ensures p in SpansOf(s, known, true)
       <==> exists n: nat :: n < |Met(s, known)| && RegionOf(Met(s, known), n, true) == Some(p)
  {
    SpansShown(s, known, true);
    var E := Met(s, known);
    if exists n: nat :: n < |E| && RegionOf(E, n, true) == Some(p) {
      assert Shown(E, p, |E|, true);
    }
  }

  ghost predicate IsRegion(E: seq<Event>, p: Span) {
    exists n: nat :: n < |E| && RegionOf(E, n, false) == Some(p)
  }

  ghost predicate Inside(p: Span, q: Span) { p != q && q.start <= p.start && p.end <= q.end }

  lemma {:induction false} SwallowedIsInside(E: seq<Event>, n: nat, m: nat)
    requires InOrder(E, 0) && n < m < |E| && RegionOf(E, n, false).Some? && MatchOf(E, m).Some?
    requires MatchOf(E, m).value < n
    ensures Inside(RegionOf(E, n, false).value, RegionOf(E, m, false).value)
  {
    ShownBefore(E, n, m);
    assert E[n].end <= E[m].start;
  }

  lemma {:induction false} EndsWithin(E: seq<Event>, n: nat, m: nat)
    requires InOrder(E, 0) && n < |E| && m < |E| && E[n].end <= E[m].end
    ensures n <= m
  {
  }

  lemma {:induction false} InsideIsSwallowed(E: seq<Event>, n: nat, m: nat)
    requires InOrder(E, 0) && n < |E| && m < |E| && RegionOf(E, n, false).Some? && RegionOf(E, m, false).Some?
    requires Inside(RegionOf(E, n, false).value, RegionOf(E, m, false).value)
    ensures n < m && MatchOf(E, m).Some? && MatchOf(E, m).value < n
  {
    EndsWithin(E, n, m);
    StartsEarlier(E, n);
    if E[m].kind == Closing {
      ShownBefore(E, n, m);
    } else {
      assert false;
    }
  }

  lemma {:induction false} StartsEarlier(E: seq<Event>, n: nat)
    requires InOrder(E, 0) && n < |E| && RegionOf(E, n, false).Some?
    ensures RegionOf(E, n, false).value.start <= E[n].start && RegionOf(E, n, false).value.end == E[n].end
  {
    if E[n].kind == Closing {
      assert E[MatchOf(E, n).value].end <= E[n].start;
    }
  }

  lemma {:induction false} SwallowedIff(E: seq<Event>, n: nat)
    requires InOrder(E, 0) && n < |E| && RegionOf(E, n, false).Some?
    ensures Swallowed(E, n, |E|) <==> exists q :: IsRegion(E, q) && Inside(RegionOf(E, n, false).value, q)
  {
    var p := RegionOf(E, n, false).value;
    if Swallowed(E, n, |E|) {
      var m: nat :| n < m < |E| && MatchOf(E, m).Some? && MatchOf(E, m).value < n;
      SwallowedIsInside(E, n, m);
      assert IsRegion(E, RegionOf(E, m, false).value);
    }
    if exists q :: IsRegion(E, q) && Inside(p, q) {
      var q :| IsRegion(E, q) && Inside(p, q);
      var m: nat :| m < |E| && RegionOf(E, m, false) == Some(q);
      InsideIsSwallowed(E, n, m);
    }
  }

  /** In block mode, exactly the outermost regions: self-closing tags and matched pairs
      that lie in no other. */
  lemma {:induction false} RegionsAreOutermost(s: string, known: string -> bool, p: Span)
    ensures var E := Met(s, known);
            p in SpansOf(s, known, false) <==> IsRegion(E, p) && !exists q :: IsRegion(E, q) && Inside(p, q)
  {
    var E := Met(s, known);
    SpansShown(s, known, false);
    forall n: nat | n < |E| && RegionOf(E, n, false) == Some(p)
      ensures Swallowed(E, n, |E|) <==> exists q :: IsRegion(E, q) && Inside(p, q)
    {
      SwallowedIff(E, n);
    }
    if IsRegion(E, p) && !exists q :: IsRegion(E, q) && Inside(p, q) {
      var n: nat :| n < |E| && RegionOf(E, n, false) == Some(p);
      assert !Swallowed(E, n, |E|);
      assert Shown(E, p, |E|, false);
    }
  }
}
