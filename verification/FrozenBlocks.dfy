/** Which blocks a dispatch may change and which it leaves alone, said of the body's
    parts: plan.go and livezone.go of internal/livezone. */
module FrozenBlocks {

  import opened Common
  import opened Splice
  import opened Replay
  import opened LiveZone
  import opened BodyLayout
  import opened PrefixStability
  import opened ReplayRuns
  import DispatchSafety
  import StableRuns

  // ---- the kinds of blocks ----

  /** A block the provider may have cached: a tool call, a thinking block or a
      compaction, and any nested block that carries a cache_control. */
  predicate Frozen(b: Block) {
    || b.blockType == ToolUse || b.blockType == Thinking || b.blockType == RedactedThinking || b.blockType == Compaction
    || (b.contentIndex >= 0 && b.cacheMarked)
  }

  /** A block with a string the proxy knows how to shrink. */
  predicate HasPayload(b: Block) {
    && b.lit.Some?
    && (b.blockType == TextType || b.blockType == ImageType || (b.blockType == ToolResult && b.contentIndex < 0))
  }

  /** A whole-string message, or a payload that is not frozen, of at least 512
      characters. */
  predicate MayChange(whole: bool, p: Part) {
    && p.Slot? && p.block.lit.Some? && |p.block.lit.value.text| >= 512
    && (whole || (!Frozen(p.block) && HasPayload(p.block)))
  }

  /** Exactly these are planned for replay and compression. */
  lemma {:induction false} PlannedIff(whole: bool, b: Block, offset: nat)
    requires whole ==> b.lit.Some?
    ensures Replayable(PlanOne(whole, b, offset)) <==> MayChange(whole, Slot(b))
  {
  }

  /** How the planner files every block of a message. */
  lemma {:induction false} KindIs(b: Block, offset: nat)
    ensures var kind := PlanOne(false, b, offset).kind;
            && (kind == HotZone <==> Frozen(b))
            && (kind == Unreachable <==> !Frozen(b) && !HasPayload(b))
            && (kind == BelowThreshold <==> !Frozen(b) && HasPayload(b) && |b.lit.value.text| < 512)
            && (kind == ImageData <==> MayChange(false, Slot(b)) && b.blockType == ImageType)
            && (kind == Compressible <==> MayChange(false, Slot(b)) && b.blockType != ImageType)
  {
  }

  // ---- where the parts of a body lie ----

  ghost function PartEnd(chat: Chat, i: nat, j: nat): nat
    requires i < |chat.messages| && j < |chat.messages[i].parts|
  {
    PartOffset(chat, i, j) + |PartBytes(chat.messages[i].parts[j])|
  }

  lemma {:induction false} RenderPartsNext(parts: seq<Part>, j: nat)
    requires j < |parts|
    ensures |RenderParts(parts[..j + 1])| == |RenderParts(parts[..j])| + |PartBytes(parts[j])|
  {
    if j == 0 {
      assert parts[..1][1..] == [] && parts[..0] == [];
    } else {
      RenderPartsNext(parts[1..], j - 1);
      RenderPrefix(parts, j);
      RenderPrefix(parts, j + 1);
    }
  }

  lemma {:induction false} PartsAscend(chat: Chat, i: nat, j: nat, k: nat)
    requires i < |chat.messages| && j < k <= |chat.messages[i].parts|
    ensures PartEnd(chat, i, j) <= PartOffset(chat, i, k)
  {
    RenderPartsNext(chat.messages[i].parts, k - 1);
    if j < k - 1 {
      PartsAscend(chat, i, j, k - 1);
    }
  }

  lemma {:induction false} PartInMessage(chat: Chat, i: nat, j: nat)
    requires i < |chat.messages| && j < |chat.messages[i].parts|
    ensures MessageStart(chat, i) <= PartOffset(chat, i, j) <= PartEnd(chat, i, j) <= MessageStart(chat, i + 1)
  {
    var parts := chat.messages[i].parts;
    PartsAscend(chat, i, j, |parts|);
    assert parts[..|parts|] == parts;
    MessageStartNext(chat, i);
  }

  /** Different parts of a body do not overlap. */
  lemma {:induction false} PartsApart(chat: Chat, i: nat, j: nat, i': nat, j': nat)
    requires i < |chat.messages| && j < |chat.messages[i].parts|
    requires i' < |chat.messages| && j' < |chat.messages[i'].parts| && (i != i' || j != j')
    ensures PartEnd(chat, i, j) <= PartOffset(chat, i', j') || PartEnd(chat, i', j') <= PartOffset(chat, i, j)
  {
    PartInMessage(chat, i, j);
    PartInMessage(chat, i', j');
    if i < i' {
      MessageStartsAscend(chat, i + 1, i');
    } else if i' < i {
      MessageStartsAscend(chat, i' + 1, i);
    } else if j < j' {
      PartsAscend(chat, i, j, j');
    } else {
      PartsAscend(chat, i, j', j);
    }
  }

  // ---- every replacement lies over a planned slot ----

  ghost predicate OverPlan(chat: Chat, r: Replacement) {
    exists i, s :: 0 <= i < |chat.messages| && s in PlanAt(chat, i) && Replayable(s) && Over(r, s)
  }

  ghost predicate AllOverPlan(chat: Chat, reps: seq<Replacement>) { forall r :: r in reps ==> OverPlan(chat, r) }

  /** At most one replacement more, over s. */
  ghost predicate AddsOver(before: seq<Replacement>, after: seq<Replacement>, s: PlanSlot) {
    after == before || (Replayable(s) && |after| == |before| + 1 && after[..|before|] == before
                        && Over(after[|before|], s))
  }

  lemma {:induction false} AddedOver(chat: Chat, i: nat, before: seq<Replacement>, after: seq<Replacement>, s: PlanSlot)
    requires i < |chat.messages| && s in PlanAt(chat, i) && AllOverPlan(chat, before) && AddsOver(before, after, s)
    ensures AllOverPlan(chat, after)
  {
    if after != before {
      assert after == before + [after[|before|]];
      assert OverPlan(chat, after[|before|]);
    }
  }

  lemma {:induction false} ReplayAdds(fx: Fixed, op: Options, turn: nat, i: nat, acc: Acc, s: PlanSlot)
    ensures AddsOver(acc.reps, ReplaySlot(fx, op, turn, i, acc, s).reps, s)
  {
  }

  lemma {:induction false} ImageAdds(fx: Fixed, op: Options, replaying: bool, turn: nat, i: nat, acc: Acc, s: PlanSlot)
    requires s.kind == ImageData
    ensures AddsOver(acc.reps, FreshImage(fx, op, replaying, turn, i, acc, s).reps, s)
  {
  }

  lemma {:induction false} TextAdds(fx: Fixed, op: Options, replaying: bool, turn: nat, chat: Chat, i: nat, acc: Acc,
                                    s: PlanSlot)
    requires s.kind == Compressible || s.kind == StringContent
    ensures AddsOver(acc.reps, FreshText(fx, op, replaying, turn, chat, i, acc, s).reps, s)
  {
  }

  lemma {:induction false} FreshAdds(fx: Fixed, op: Options, replaying: bool, turn: nat, chat: Chat, i: nat,
                                     claimed: set<int>, acc: Acc, s: PlanSlot)
    ensures AddsOver(acc.reps, FreshSlot(fx, op, replaying, turn, chat, i, claimed, acc, s).reps, s)
  {
    if s.kind == ImageData {
      ImageAdds(fx, op, replaying, turn, i, acc, s);
    } else if s.kind == Compressible || s.kind == StringContent {
      TextAdds(fx, op, replaying, turn, chat, i, acc, s);
    }
  }

  lemma {:induction false} ReplaySlotsOver(fx: Fixed, op: Options, turn: nat, chat: Chat, i: nat, acc: Acc,
                                           slots: seq<PlanSlot>)
    requires i < |chat.messages| && AllOverPlan(chat, acc.reps) && forall s :: s in slots ==> s in PlanAt(chat, i)
    ensures AllOverPlan(chat, ReplaySlots(fx, op, turn, i, acc, slots).reps)
  {
    if slots != [] {
      var init, s := slots[..|slots| - 1], slots[|slots| - 1];
      var mid := ReplaySlots(fx, op, turn, i, acc, init);
      ReplaySlotsOver(fx, op, turn, chat, i, acc, init);
      ReplayAdds(fx, op, turn, i, mid, s);
      AddedOver(chat, i, mid.reps, ReplaySlot(fx, op, turn, i, mid, s).reps, s);
    }
  }

  lemma {:induction false} ReplayMessagesOver(fx: Fixed, op: Options, turn: nat, chat: Chat, acc: Acc, n: nat)
    requires n <= |chat.messages| && AllOverPlan(chat, acc.reps)
    ensures AllOverPlan(chat, ReplayMessages(fx, op, turn, chat, acc, n).reps)
  {
    if n > 0 {
      ReplayMessagesOver(fx, op, turn, chat, acc, n - 1);
      ReplaySlotsOver(fx, op, turn, chat, n - 1, ReplayMessages(fx, op, turn, chat, acc, n - 1), PlanAt(chat, n - 1));
    }
  }

  lemma {:induction false} FreshSlotsOver(fx: Fixed, op: Options, replaying: bool, turn: nat, chat: Chat, i: nat,
                                          claimed: set<int>, acc: Acc, slots: seq<PlanSlot>)
    requires i < |chat.messages| && AllOverPlan(chat, acc.reps) && forall s :: s in slots ==> s in PlanAt(chat, i)
    ensures AllOverPlan(chat, FreshSlots(fx, op, replaying, turn, chat, i, claimed, acc, slots).reps)
  {
    if slots != [] {
      var init, s := slots[..|slots| - 1], slots[|slots| - 1];
      var mid := FreshSlots(fx, op, replaying, turn, chat, i, claimed, acc, init);
      FreshSlotsOver(fx, op, replaying, turn, chat, i, claimed, acc, init);
      FreshAdds(fx, op, replaying, turn, chat, i, claimed, mid, s);
      AddedOver(chat, i, mid.reps, FreshSlot(fx, op, replaying, turn, chat, i, claimed, mid, s).reps, s);
    }
  }

  lemma {:induction false} PassesOver(fx: Fixed, op: Options, replaying: bool, turn: nat, chat: Chat, floor: nat,
                                      session: Session, store: StoreState)
    ensures AllOverPlan(chat, Passes(fx, op, replaying, turn, chat, floor, session, store).reps)
  {
    var half := ReplayPass(fx, op, replaying, turn, chat, session, store);
    if replaying {
      ReplayMessagesOver(fx, op, turn, chat, Start(session, store), |chat.messages|);
    }
    match LatestUser(chat.messages, floor)
    case None =>
    case Some(i) => FreshSlotsOver(fx, op, replaying, turn, chat, i, Starts(half.reps), half, PlanAt(chat, i));
  }

  // ---- what stays ----

  /** The planned slot lies over exactly one part, one that may change. */
  lemma {:induction false} SlotIsPart(chat: Chat, i: nat, s: PlanSlot) returns (j: nat)
    requires WellFormed(chat) && i < |chat.messages| && s in PlanAt(chat, i) && Replayable(s)
    ensures j < |chat.messages[i].parts| && MayChange(chat.messages[i].whole, chat.messages[i].parts[j])
    ensures s.start == PartOffset(chat, i, j) && s.end == PartEnd(chat, i, j)
  {
    var m := chat.messages[i];
    j := StableRuns.PlanHasPart(m.whole, m.parts, MessageStart(chat, i), s);
    assert ProperPart(m.whole, m.parts[j]);
    PlannedIff(m.whole, m.parts[j].block, PartOffset(chat, i, j));
  }

  /** Whatever the session and the store hold: every part that may not change, every
      frozen block among them, lies outside every range a dispatch rewrites. */
  lemma {:induction false} FrozenIsUntouched(fx: Fixed, op: Options, replaying: bool, turn: nat, chat: Chat, floor: nat,
                                             session: Session, store: StoreState, i: nat, j: nat, k: nat)
    requires WellFormed(chat) && i < |chat.messages| && j < |chat.messages[i].parts|
    requires !MayChange(chat.messages[i].whole, chat.messages[i].parts[j])
    requires k < |ResultOf(chat, floor, Passes(fx, op, replaying, turn, chat, floor, session, store)).rewritten|
    ensures var g := ResultOf(chat, floor, Passes(fx, op, replaying, turn, chat, floor, session, store)).rewritten[k];
            g.end <= PartOffset(chat, i, j) || PartEnd(chat, i, j) <= g.start
  {
    var acc := Passes(fx, op, replaying, turn, chat, floor, session, store);
    var r := ResultOf(chat, floor, acc);
    PassesOver(fx, op, replaying, turn, chat, floor, session, store);
    DispatchSafety.RangesHoldReps(chat, floor, acc, k);
    var rep := Replacement(r.rewritten[k].start, r.rewritten[k].end, DispatchSafety.StandsIn(r, k));
    assert OverPlan(chat, rep);
    var i', s :| 0 <= i' < |chat.messages| && s in PlanAt(chat, i') && Replayable(s) && Over(rep, s);
    var j' := SlotIsPart(chat, i', s);
    PartsApart(chat, i, j, i', j');
  }

  /** So on every turn such a part goes out as it came. */
  lemma {:induction false} FrozenGoesOut(fx: Fixed, session: Session, t: TurnInput, i: nat, j: nat)
    requires WellFormed(t.chat) && i < |t.chat.messages| && j < |t.chat.messages[i].parts|
    requires !MayChange(t.chat.messages[i].whole, t.chat.messages[i].parts[j])
    ensures Sent(fx, session, t, i, j) == PartBytes(t.chat.messages[i].parts[j])
  {
    var m := t.chat.messages[i];
    assert ProperPart(m.whole, m.parts[j]);
    if m.parts[j].Slot? {
      PlannedIff(m.whole, m.parts[j].block, 0);
    }
  }
}
