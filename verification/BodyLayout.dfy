/** Where slots sit in a body, and what the byte splice does to them.

    A rendered conversation is a list of pieces, some of them slots. Planned slots
    are slots of that list, and replacing some of them byte by byte is the same as
    replacing them in the list. */
module BodyLayout {

  import opened Common
  import opened Splice
  import opened Replay
  import opened LiveZone

  // ---- a body as pieces ----

  /** The bytes of one part; slot marks a string both passes may rewrite. */
  datatype Piece = Piece(bytes: Bytes, slot: bool)

  predicate Eligible(whole: bool, p: Part) {
    p.Slot? && Replayable(PlanOne(whole, p.block, 0))
  }

  ghost function PiecesOf(whole: bool, parts: seq<Part>): seq<Piece> {
    if parts == [] then [] else [Piece(PartBytes(parts[0]), Eligible(whole, parts[0]))] + PiecesOf(whole, parts[1..])
  }

  ghost function Pieces(ms: seq<Message>): seq<Piece> {
    if ms == [] then [] else PiecesOf(ms[0].whole, ms[0].parts) + Pieces(ms[1..])
  }

  ghost function Concat(pieces: seq<Piece>): Bytes {
    if pieces == [] then "" else pieces[0].bytes + Concat(pieces[1..])
  }

  ghost predicate ProperPieces(pieces: seq<Piece>) {
    forall i :: 0 <= i < |pieces| ==> (pieces[i].slot ==> |pieces[i].bytes| >= 2)
  }

  ghost predicate IsSlot(pieces: seq<Piece>, offset: nat, start: int, end: int) {
    pieces != [] &&
    ((pieces[0].slot && start == offset && end == offset + |pieces[0].bytes|)
     || IsSlot(pieces[1..], offset + |pieces[0].bytes|, start, end))
  }

  lemma {:induction false} ConcatAppend(a: seq<Piece>, b: seq<Piece>)
    ensures Concat(a + b) == Concat(a) + Concat(b)
  {
    if a == [] {
      assert a + b == b;
    } else {
      ConcatAppend(a[1..], b);
      assert (a + b)[1..] == a[1..] + b;
      SeqAssoc(a[0].bytes, Concat(a[1..]), Concat(b));
    }
  }

  lemma {:induction false} PiecesOfRender(whole: bool, parts: seq<Part>)
    ensures Concat(PiecesOf(whole, parts)) == RenderParts(parts)
    ensures |PiecesOf(whole, parts)| == |parts|
  {
    if parts != [] {
      PiecesOfRender(whole, parts[1..]);
      assert PiecesOf(whole, parts)[1..] == PiecesOf(whole, parts[1..]);
    }
  }

  lemma {:induction false} PiecesRender(ms: seq<Message>)
    ensures Concat(Pieces(ms)) == RenderMessages(ms)
  {
    if ms != [] {
      PiecesRender(ms[1..]);
      PiecesOfRender(ms[0].whole, ms[0].parts);
      ConcatAppend(PiecesOf(ms[0].whole, ms[0].parts), Pieces(ms[1..]));
    }
  }

  lemma {:induction false} PiecesOfProper(whole: bool, parts: seq<Part>)
    requires forall j :: 0 <= j < |parts| ==> ProperPart(whole, parts[j])
    ensures ProperPieces(PiecesOf(whole, parts))
  {
    if parts != [] {
      PiecesOfProper(whole, parts[1..]);
    }
  }

  lemma {:induction false} PiecesProper(ms: seq<Message>)
    requires forall i, j :: 0 <= i < |ms| && 0 <= j < |ms[i].parts| ==> ProperPart(ms[i].whole, ms[i].parts[j])
    ensures ProperPieces(Pieces(ms))
  {
    if ms != [] {
      PiecesProper(ms[1..]);
      PiecesOfProper(ms[0].whole, ms[0].parts);
    }
  }

  // ---- slots are apart ----

  lemma {:induction false} SlotBounds(pieces: seq<Piece>, offset: nat, s: int, e: int)
    requires ProperPieces(pieces) && IsSlot(pieces, offset, s, e)
    ensures offset <= s < e <= offset + |Concat(pieces)|
  {
    if !(pieces[0].slot && s == offset && e == offset + |pieces[0].bytes|) {
      SlotBounds(pieces[1..], offset + |pieces[0].bytes|, s, e);
    }
  }

  lemma {:induction false} SlotsApart(pieces: seq<Piece>, offset: nat, s: int, e: int, s': int, e': int)
    requires ProperPieces(pieces) && IsSlot(pieces, offset, s, e) && IsSlot(pieces, offset, s', e')
    ensures (s == s' && e == e') || e <= s' || e' <= s
  {
    var here := pieces[0].slot && s == offset && e == offset + |pieces[0].bytes|;
    var here' := pieces[0].slot && s' == offset && e' == offset + |pieces[0].bytes|;
    var next := offset + |pieces[0].bytes|;
    if here && !here' {
      SlotBounds(pieces[1..], next, s', e');
    } else if !here && here' {
      SlotBounds(pieces[1..], next, s, e);
    } else if !here {
      SlotsApart(pieces[1..], next, s, e, s', e');
    }
  }

  lemma {:induction false} IsSlotAppend(a: seq<Piece>, b: seq<Piece>, offset: nat, s: int, e: int)
    ensures IsSlot(a + b, offset, s, e) <==> IsSlot(a, offset, s, e) || IsSlot(b, offset + |Concat(a)|, s, e)
  {
    if a == [] {
      assert a + b == b;
    } else {
      assert (a + b)[1..] == a[1..] + b;
      IsSlotAppend(a[1..], b, offset + |a[0].bytes|, s, e);
    }
  }

  // ---- plans and slots ----

  lemma {:induction false} PlannedIsSlot(whole: bool, parts: seq<Part>, offset: nat, k: nat)
    requires forall j :: 0 <= j < |parts| ==> ProperPart(whole, parts[j])
    requires k < |Plan(whole, parts, offset)| && Replayable(Plan(whole, parts, offset)[k])
    ensures IsSlot(PiecesOf(whole, parts), offset, Plan(whole, parts, offset)[k].start,
                   Plan(whole, parts, offset)[k].end)
  {
    var rest := Plan(whole, parts[1..], offset + |PartBytes(parts[0])|);
    assert PiecesOf(whole, parts)[1..] == PiecesOf(whole, parts[1..]);
    if parts[0].Slot? && k == 0 {
    } else {
      var k' := if parts[0].Slot? then k - 1 else k;
      assert Plan(whole, parts, offset)[k] == rest[k'];
      PlannedIsSlot(whole, parts[1..], offset + |PartBytes(parts[0])|, k');
    }
  }

  /** Planned slots come in ascending order. */
  lemma {:induction false} PlanAscends(whole: bool, parts: seq<Part>, offset: nat, a: nat, b: nat)
    requires forall j :: 0 <= j < |parts| ==> ProperPart(whole, parts[j])
    requires a < b < |Plan(whole, parts, offset)|
    requires Replayable(Plan(whole, parts, offset)[a]) && Replayable(Plan(whole, parts, offset)[b])
    ensures Plan(whole, parts, offset)[a].end <= Plan(whole, parts, offset)[b].start
  {
    var next := offset + |PartBytes(parts[0])|;
    var rest := Plan(whole, parts[1..], next);
    if parts[0].Slot? {
      assert Plan(whole, parts, offset)[b] == rest[b - 1];
      if a == 0 {
        PlannedIsSlot(whole, parts[1..], next, b - 1);
        PiecesOfProper(whole, parts[1..]);
        SlotBounds(PiecesOf(whole, parts[1..]), next, rest[b - 1].start, rest[b - 1].end);
      } else {
        assert Plan(whole, parts, offset)[a] == rest[a - 1];
        PlanAscends(whole, parts[1..], next, a - 1, b - 1);
      }
    } else {
      PlanAscends(whole, parts[1..], next, a, b);
    }
  }

  lemma {:induction false} PiecesAppend(a: seq<Message>, b: seq<Message>)
    ensures Pieces(a + b) == Pieces(a) + Pieces(b)
  {
    if a == [] {
      assert a + b == b;
    } else {
      assert (a + b)[1..] == a[1..] + b;
      PiecesAppend(a[1..], b);
    }
  }

  /** A slot planned in message i is a slot of the whole body, inside message i. */
  lemma {:induction false} PlanAtIsSlot(chat: Chat, i: nat, s: PlanSlot)
    requires WellFormed(chat) && i < |chat.messages| && s in PlanAt(chat, i) && Replayable(s)
    ensures IsSlot(Pieces(chat.messages), |chat.head|, s.start, s.end)
    ensures MessageStart(chat, i) <= s.start < s.end <= MessageStart(chat, i + 1)
  {
    var m := chat.messages[i];
    var k :| 0 <= k < |PlanAt(chat, i)| && PlanAt(chat, i)[k] == s;
    PlannedIsSlot(m.whole, m.parts, MessageStart(chat, i), k);
    PiecesOfProper(m.whole, m.parts);
    SlotBounds(PiecesOf(m.whole, m.parts), MessageStart(chat, i), s.start, s.end);
    PiecesOfRender(m.whole, m.parts);
    MessageStartNext(chat, i);
    var a, b := chat.messages[..i], chat.messages[i + 1..];
    assert chat.messages == a + ([m] + b);
    PiecesAppend(a, [m] + b);
    PiecesRender(a);
    IsSlotAppend(Pieces(a), Pieces([m] + b), |chat.head|, s.start, s.end);
    assert ([m] + b)[1..] == b;
    IsSlotAppend(PiecesOf(m.whole, m.parts), Pieces(b), MessageStart(chat, i), s.start, s.end);
  }

  lemma {:induction false} RenderAppend(a: seq<Message>, b: seq<Message>)
    ensures RenderMessages(a + b) == RenderMessages(a) + RenderMessages(b)
  {
    if a == [] {
      assert a + b == b;
    } else {
      assert (a + b)[1..] == a[1..] + b;
      RenderAppend(a[1..], b);
    }
  }

  lemma {:induction false} MessageStartNext(chat: Chat, i: nat)
    requires i < |chat.messages|
    ensures MessageStart(chat, i + 1) == MessageStart(chat, i) + |RenderParts(chat.messages[i].parts)|
  {
    assert chat.messages[..i + 1] == chat.messages[..i] + [chat.messages[i]];
    RenderAppend(chat.messages[..i], [chat.messages[i]]);
    assert RenderMessages([chat.messages[i]]) == RenderParts(chat.messages[i].parts);
  }

  lemma {:induction false} MessageStartsAscend(chat: Chat, i: nat, j: nat)
    requires i <= j <= |chat.messages|
    ensures MessageStart(chat, i) <= MessageStart(chat, j)
  {
    if i < j {
      MessageStartsAscend(chat, i, j - 1);
      MessageStartNext(chat, j - 1);
    }
  }

  // ---- what goes out ----

  /** The bytes replacing the slot at start, if any. */
  ghost function RepAt(reps: seq<Replacement>, start: int): Option<Bytes> {
    if reps == [] then None
    else if reps[0].start == start then Some(reps[0].repl)
    else RepAt(reps[1..], start)
  }

  ghost predicate DistinctStarts(reps: seq<Replacement>) {
    forall a, b :: 0 <= a < b < |reps| ==> reps[a].start != reps[b].start
  }

  lemma {:induction false} RepAtMember(reps: seq<Replacement>, start: int)
    ensures RepAt(reps, start).Some? ==> exists r :: r in reps && r.start == start && r.repl == RepAt(reps, start).value
    ensures RepAt(reps, start).None? ==> forall r :: r in reps ==> r.start != start
  {
    if reps != [] && reps[0].start != start {
      RepAtMember(reps[1..], start);
    }
  }

  lemma {:induction false} RepAtIs(reps: seq<Replacement>, r: Replacement)
    requires DistinctStarts(reps) && r in reps
    ensures RepAt(reps, r.start) == Some(r.repl)
  {
    RepAtMember(reps, r.start);
    if RepAt(reps, r.start).Some? {
      var q :| q in reps && q.start == r.start && q.repl == RepAt(reps, r.start).value;
      var a :| 0 <= a < |reps| && reps[a] == r;
      var b :| 0 <= b < |reps| && reps[b] == q;
      assert a == b;
    }
  }

  /** The bytes one part becomes. */
  ghost function OutPart(whole: bool, p: Part, offset: nat, reps: seq<Replacement>): Bytes {
    if Eligible(whole, p) && RepAt(reps, offset).Some? then RepAt(reps, offset).value else PartBytes(p)
  }

  ghost function OutParts(whole: bool, parts: seq<Part>, offset: nat, reps: seq<Replacement>): (r: seq<Bytes>)
    ensures |r| == |parts|
  {
    if parts == [] then []
    else [OutPart(whole, parts[0], offset, reps)] + OutParts(whole, parts[1..], offset + |PartBytes(parts[0])|, reps)
  }

  /** The rewritten message i, part by part. */
  ghost function OutMessage(chat: Chat, i: nat, reps: seq<Replacement>): seq<Bytes>
    requires i < |chat.messages|
  {
    OutParts(chat.messages[i].whole, chat.messages[i].parts, MessageStart(chat, i), reps)
  }

  ghost function Joined(parts: seq<Bytes>): Bytes {
    if parts == [] then "" else parts[0] + Joined(parts[1..])
  }

  /** The rewritten messages from i on, as bytes. */
  ghost function OutFrom(chat: Chat, i: nat, reps: seq<Replacement>): Bytes
    requires i <= |chat.messages|
    decreases |chat.messages| - i
  {
    if i == |chat.messages| then "" else Joined(OutMessage(chat, i, reps)) + OutFrom(chat, i + 1, reps)
  }

  ghost function OutBytes(pieces: seq<Piece>, offset: nat, reps: seq<Replacement>): Bytes {
    if pieces == [] then ""
    else
      var here := if pieces[0].slot && RepAt(reps, offset).Some? then RepAt(reps, offset).value else pieces[0].bytes;
      here + OutBytes(pieces[1..], offset + |pieces[0].bytes|, reps)
  }

  lemma {:induction false} OutBytesAppend(a: seq<Piece>, b: seq<Piece>, offset: nat, reps: seq<Replacement>)
    ensures OutBytes(a + b, offset, reps) == OutBytes(a, offset, reps) + OutBytes(b, offset + |Concat(a)|, reps)
  {
    if a == [] {
      assert a + b == b;
    } else {
      assert (a + b)[1..] == a[1..] + b;
      OutBytesAppend(a[1..], b, offset + |a[0].bytes|, reps);
    }
  }

  lemma {:induction false} OutPartsJoined(whole: bool, parts: seq<Part>, offset: nat, reps: seq<Replacement>)
    ensures Joined(OutParts(whole, parts, offset, reps)) == OutBytes(PiecesOf(whole, parts), offset, reps)
  {
    if parts != [] {
      var next := offset + |PartBytes(parts[0])|;
      OutPartsJoined(whole, parts[1..], next, reps);
      assert PiecesOf(whole, parts)[1..] == PiecesOf(whole, parts[1..]);
      assert OutParts(whole, parts, offset, reps)[1..] == OutParts(whole, parts[1..], next, reps);
    }
  }

  lemma {:induction false} OutFromIsOutBytes(chat: Chat, i: nat, reps: seq<Replacement>)
    requires i <= |chat.messages|
    ensures OutFrom(chat, i, reps) == OutBytes(Pieces(chat.messages[i..]), MessageStart(chat, i), reps)
    decreases |chat.messages| - i
  {
    if i < |chat.messages| {
      var m := chat.messages[i];
      OutFromIsOutBytes(chat, i + 1, reps);
      OutPartsJoined(m.whole, m.parts, MessageStart(chat, i), reps);
      PiecesOfRender(m.whole, m.parts);
      MessageStartNext(chat, i);
      assert chat.messages[i..][1..] == chat.messages[i + 1..];
      OutBytesAppend(PiecesOf(m.whole, m.parts), Pieces(chat.messages[i + 1..]), MessageStart(chat, i), reps);
    }
  }

  // ---- the splice rewrites exactly the slots ----

  lemma {:induction false} SplicedAdvance(orig: Bytes, cursor: nat, next: nat, acc: seq<Replacement>)
    requires cursor <= next <= |orig| && Disjoint(acc, cursor, |orig|)
    requires acc != [] ==> next <= acc[0].start
    ensures Disjoint(acc, next, |orig|)
    ensures Spliced(orig, cursor, acc) == orig[cursor..next] + Spliced(orig, next, acc)
  {
    if acc == [] {
      assert orig[cursor..] == orig[cursor..next] + orig[next..];
    } else {
      var a := acc[0];
      var tail := Spliced(orig, a.end, acc[1..]);
      assert orig[cursor..a.start] == orig[cursor..next] + orig[next..a.start];
      SeqAssoc(orig[cursor..next], orig[next..a.start], a.repl);
      SeqAssoc(orig[cursor..next], orig[next..a.start] + a.repl, tail);
    }
  }

  lemma {:induction false} OutBytesSkips(pieces: seq<Piece>, offset: nat, r: Replacement, acc: seq<Replacement>)
    requires r.start < offset
    ensures OutBytes(pieces, offset, [r] + acc) == OutBytes(pieces, offset, acc)
  {
    if pieces != [] {
      OutBytesSkips(pieces[1..], offset + |pieces[0].bytes|, r, acc);
      assert ([r] + acc)[1..] == acc;
    }
  }

  ghost predicate AllSlots(pieces: seq<Piece>, offset: nat, acc: seq<Replacement>) {
    forall i :: 0 <= i < |acc| ==> IsSlot(pieces, offset, acc[i].start, acc[i].end)
  }

  lemma {:induction false} SpliceOverPieces(orig: Bytes, pieces: seq<Piece>, offset: nat, acc: seq<Replacement>,
                                            tail: Bytes)
    requires ProperPieces(pieces) && AllSlots(pieces, offset, acc)
    requires offset <= |orig| && orig[offset..] == Concat(pieces) + tail
    requires Chain(acc, offset, |orig|)
    ensures Spliced(orig, offset, acc) == OutBytes(pieces, offset, acc) + tail
    decreases |pieces|
  {
    if pieces == [] {
    } else {
      var next := offset + |pieces[0].bytes|;
      TextOfRest(orig, pieces, offset, tail);
      if acc != [] && acc[0].start == offset && pieces[0].slot {
        FirstSlotTaken(orig, pieces, offset, acc);
        SpliceOverPieces(orig, pieces[1..], next, acc[1..], tail);
        SpliceTakesFirst(orig, offset, acc, OutBytes(pieces[1..], next, acc[1..]), tail);
        OutBytesTakesFirst(pieces, offset, acc);
      } else {
        PieceLeftAlone(pieces, offset, acc, |orig|);
        SpliceOverPieces(orig, pieces[1..], next, acc, tail);
        SpliceKeepsFirst(orig, offset, next, acc, pieces[0].bytes, OutBytes(pieces[1..], next, acc), tail);
      }
    }
  }

  lemma {:induction false} TextOfRest(orig: Bytes, pieces: seq<Piece>, offset: nat, tail: Bytes)
    requires pieces != [] && offset <= |orig| && orig[offset..] == Concat(pieces) + tail
    ensures var next := offset + |pieces[0].bytes|;
            && next <= |orig| && orig[offset..next] == pieces[0].bytes
            && orig[next..] == Concat(pieces[1..]) + tail
  {
    DropPrefix(orig, offset, pieces[0].bytes, Concat(pieces[1..]), tail);
  }

  lemma {:induction false} DropPrefix(orig: Bytes, offset: nat, a: Bytes, b: Bytes, tail: Bytes)
    requires offset <= |orig| && orig[offset..] == (a + b) + tail
    ensures offset + |a| <= |orig| && orig[offset..offset + |a|] == a && orig[offset + |a|..] == b + tail
  {
    var s := orig[offset..];
    SeqAssoc(a, b, tail);
    assert s[..|a|] == a && s[|a|..] == b + tail;
    SliceOfSlice(orig, offset, offset, offset + |a|);
  }

  lemma {:induction false} SpliceTakesFirst(orig: Bytes, offset: nat, acc: seq<Replacement>, out: Bytes, tail: Bytes)
    requires acc != [] && offset <= |orig| && Chain(acc, offset, |orig|) && acc[0].start == offset
    requires Chain(acc[1..], acc[0].end, |orig|) && Spliced(orig, acc[0].end, acc[1..]) == out + tail
    ensures Spliced(orig, offset, acc) == (acc[0].repl + out) + tail
  {
    assert orig[offset..offset] == "";
    SeqAssoc(acc[0].repl, out, tail);
  }

  lemma {:induction false} OutBytesTakesFirst(pieces: seq<Piece>, offset: nat, acc: seq<Replacement>)
    requires pieces != [] && acc != [] && acc[0].start == offset && pieces[0].slot
    requires |pieces[0].bytes| > 0
    ensures OutBytes(pieces, offset, acc) == acc[0].repl + OutBytes(pieces[1..], offset + |pieces[0].bytes|, acc[1..])
  {
    assert acc == [acc[0]] + acc[1..];
    OutBytesSkips(pieces[1..], offset + |pieces[0].bytes|, acc[0], acc[1..]);
  }

  lemma {:induction false} SpliceKeepsFirst(orig: Bytes, offset: nat, next: nat, acc: seq<Replacement>, kept: Bytes,
                                            out: Bytes, tail: Bytes)
    requires offset <= next <= |orig| && orig[offset..next] == kept && Chain(acc, next, |orig|)
    requires Spliced(orig, next, acc) == out + tail
    ensures Disjoint(acc, offset, |orig|) && Spliced(orig, offset, acc) == (kept + out) + tail
  {
    SplicedAdvance(orig, offset, next, acc);
    SeqAssoc(kept, out, tail);
  }

  lemma {:induction false} FirstSlotTaken(orig: Bytes, pieces: seq<Piece>, offset: nat, acc: seq<Replacement>)
    requires ProperPieces(pieces) && AllSlots(pieces, offset, acc) && pieces != [] && acc != []
    requires Chain(acc, offset, |orig|) && acc[0].start == offset && pieces[0].slot
    ensures acc[0].end == offset + |pieces[0].bytes|
    ensures Chain(acc[1..], acc[0].end, |orig|) && AllSlots(pieces[1..], acc[0].end, acc[1..])
  {
    var next := offset + |pieces[0].bytes|;
    SlotsApart(pieces, offset, offset, next, acc[0].start, acc[0].end);
    forall i | 0 <= i < |acc[1..]| ensures IsSlot(pieces[1..], next, acc[1..][i].start, acc[1..][i].end) {
      assert IsSlot(pieces, offset, acc[i + 1].start, acc[i + 1].end);
    }
  }

  lemma {:induction false} PieceLeftAlone(pieces: seq<Piece>, offset: nat, acc: seq<Replacement>, n: nat)
    requires ProperPieces(pieces) && AllSlots(pieces, offset, acc) && pieces != [] && Chain(acc, offset, n)
    requires !(acc != [] && acc[0].start == offset && pieces[0].slot)
    ensures Chain(acc, offset + |pieces[0].bytes|, n) && AllSlots(pieces[1..], offset + |pieces[0].bytes|, acc)
    ensures !(pieces[0].slot && RepAt(acc, offset).Some?)
  {
    var next := offset + |pieces[0].bytes|;
    forall i | 0 <= i < |acc| ensures IsSlot(pieces[1..], next, acc[i].start, acc[i].end) && next <= acc[i].start {
      assert IsSlot(pieces, offset, acc[i].start, acc[i].end);
      assert acc[0].start <= acc[i].start;
      SlotBounds(pieces[1..], next, acc[i].start, acc[i].end);
    }
    RepAtMember(acc, offset);
  }

  lemma {:induction false} SlotRangesAreSeparate(pieces: seq<Piece>, offset: nat, reps: seq<Replacement>, n: nat)
    requires ProperPieces(pieces) && AllSlots(pieces, offset, reps) && DistinctStarts(reps)
    requires offset + |Concat(pieces)| <= n
    ensures Separate(reps, n)
  {
    forall i | 0 <= i < |reps| ensures 0 <= reps[i].start < reps[i].end <= n {
      SlotBounds(pieces, offset, reps[i].start, reps[i].end);
    }
    forall i, j | 0 <= i < |reps| && 0 <= j < |reps| && i != j
      ensures reps[i].end <= reps[j].start || reps[j].end <= reps[i].start
    {
      SlotsApart(pieces, offset, reps[i].start, reps[i].end, reps[j].start, reps[j].end);
    }
  }

  lemma {:induction false} OutBytesAgree(pieces: seq<Piece>, offset: nat, a: seq<Replacement>, b: seq<Replacement>)
    requires DistinctStarts(a) && DistinctStarts(b) && forall r :: r in a <==> r in b
    ensures OutBytes(pieces, offset, a) == OutBytes(pieces, offset, b)
  {
    if pieces != [] {
      OutBytesAgree(pieces[1..], offset + |pieces[0].bytes|, a, b);
      RepAtMember(a, offset);
      RepAtMember(b, offset);
      if RepAt(a, offset).Some? {
        var r :| r in a && r.start == offset && r.repl == RepAt(a, offset).value;
        RepAtIs(b, r);
      }
    }
  }

  lemma {:induction false} ChainStartsDistinct(s: seq<Replacement>, cursor: int, n: nat)
    requires Chain(s, cursor, n)
    ensures DistinctStarts(s)
  {
  }

  ghost predicate SlotReps(chat: Chat, reps: seq<Replacement>) {
    AllSlots(Pieces(chat.messages), |chat.head|, reps) && DistinctStarts(reps)
  }

  lemma {:induction false} AcceptedAreSlots(chat: Chat, reps: seq<Replacement>)
    requires WellFormed(chat) && SlotReps(chat, reps)
    ensures var acc := Accepted(Render(chat), reps);
            && multiset(acc) == multiset(reps)
            && (forall r :: r in acc <==> r in reps)
            && Chain(acc, |chat.head|, |Render(chat)|)
            && AllSlots(Pieces(chat.messages), |chat.head|, acc)
  {
    var orig := Render(chat);
    var ps := Pieces(chat.messages);
    var h := |chat.head|;
    PiecesProper(chat.messages);
    PiecesRender(chat.messages);
    SlotRangesAreSeparate(ps, h, reps, |orig|);
    SortedSeparateIsChain(reps, |orig|);
    ChainAllAccepted(|orig|, 0, SortByStart(reps));
    OrderDoesNotMatter(orig, reps, reps);
    SortMembers(reps);
    var acc := Accepted(orig, reps);
    forall i | 0 <= i < |acc| ensures IsSlot(ps, h, acc[i].start, acc[i].end) && h <= acc[i].start {
      assert acc[i] in acc;
      assert acc[i] in reps;
      SlotBounds(ps, h, acc[i].start, acc[i].end);
    }
  }

  lemma {:induction false} RenderSlices(head: Bytes, middle: Bytes, tail: Bytes)
    ensures (head + middle + tail)[0..|head|] == head && (head + middle + tail)[|head|..] == middle + tail
  {
  }

  /** The spliced body is the body with exactly the chosen slots rewritten: every
      message becomes its rewritten parts, every other byte stays. */
  lemma {:induction false} SpliceIsStructural(chat: Chat, reps: seq<Replacement>)
    requires WellFormed(chat) && SlotReps(chat, reps)
    ensures Spliced(Render(chat), 0, Accepted(Render(chat), reps)) == chat.head + OutFrom(chat, 0, reps) + chat.tail
    ensures multiset(Accepted(Render(chat), reps)) == multiset(reps)
  {
    var orig := Render(chat);
    var ps := Pieces(chat.messages);
    var h := |chat.head|;
    var acc := Accepted(orig, reps);
    PiecesProper(chat.messages);
    PiecesRender(chat.messages);
    AcceptedAreSlots(chat, reps);
    RenderSlices(chat.head, Concat(ps), chat.tail);
    SplicedAdvance(orig, 0, h, acc);
    SpliceOverPieces(orig, ps, h, acc, chat.tail);
    ChainStartsDistinct(acc, 0, |orig|);
    OutBytesAgree(ps, h, acc, reps);
    OutFromIsOutBytes(chat, 0, reps);
    assert chat.messages[0..] == chat.messages && chat.messages[..0] == [];
    SeqAssoc(chat.head, OutFrom(chat, 0, reps), chat.tail);
  }
}
