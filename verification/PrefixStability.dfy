/** What the two passes of one dispatch do, slot by slot.

    Replay answers for every slot whose key the session knows, and for no other; the
    fresh pass adds replacements in the live message only. Each pass rewrites
    a slot at most once. */
module PrefixStability {

  import opened Common
  import opened Splice
  import opened Replay
  import opened LiveZone
  import opened BodyLayout
  import Image

  // ---- what the replay pass does to a session and a list of replacements ----

  /** No block's replay was declined for a store that would not resolve it. */
  ghost predicate Undeclined(acc: Acc) {
    forall o :: o in acc.outcomes ==> o.action != StoreUnresolvable
  }

  ghost predicate Hit(fx: Fixed, blocks: map<Key, Entry>, s: PlanSlot) {
    Replayable(s) && KeyOf(fx, s) in blocks
  }

  ghost function Rep(fx: Fixed, blocks: map<Key, Entry>, s: PlanSlot): Replacement
    requires Hit(fx, blocks, s)
  {
    Replacement(s.start, s.end, fx.encode(blocks[KeyOf(fx, s)].text))
  }

  /** Same entries up to when they were last seen, which is t when it moved. */
  ghost predicate Refreshes(a: Session, b: Session, t: nat) {
    && a.turn == b.turn && a.sentCount == b.sentCount && a.blocks.Keys == b.blocks.Keys
    && forall k :: k in a.blocks ==> b.blocks[k].text == a.blocks[k].text && b.blocks[k].seen in {a.blocks[k].seen, t}
  }

  /** One replayed slot, when its replay is not declined. */
  lemma {:induction false} ReplaySlotEffect(fx: Fixed, op: Options, turn: nat, msgIdx: nat, acc: Acc, s: PlanSlot)
    requires Undeclined(ReplaySlot(fx, op, turn, msgIdx, acc, s))
    ensures var out := ReplaySlot(fx, op, turn, msgIdx, acc, s);
            && Undeclined(acc) && out.rejected == acc.rejected && Refreshes(acc.session, out.session, turn)
            && out.reps == (if Hit(fx, acc.session.blocks, s) then acc.reps + [Rep(fx, acc.session.blocks, s)]
                 else acc.reps)
            && (Hit(fx, acc.session.blocks, s) ==> out.session.blocks[KeyOf(fx, s)].seen == turn)
  {
    var out := ReplaySlot(fx, op, turn, msgIdx, acc, s);
    assert acc.outcomes <= out.outcomes;
    assert out.outcomes != acc.outcomes ==> out.outcomes[|out.outcomes| - 1] in out.outcomes;
  }

  /** The replacements of a list of slots are exactly those of its hits. */
  ghost predicate RepsAre(fx: Fixed, blocks: map<Key, Entry>, before: seq<Replacement>, reps: seq<Replacement>,
                          slots: seq<PlanSlot>) {
    && (forall r :: r in before ==> r in reps)
    && (forall s :: s in slots && Hit(fx, blocks, s) ==> Rep(fx, blocks, s) in reps)
    && (forall r :: r in reps ==>
         r in before || exists s :: s in slots && Hit(fx, blocks, s) && r == Rep(fx, blocks, s))
  }

  lemma {:induction false} ReplaySlotsEffect(fx: Fixed, op: Options, turn: nat, msgIdx: nat, acc: Acc,
                                             slots: seq<PlanSlot>)
    requires Undeclined(ReplaySlots(fx, op, turn, msgIdx, acc, slots))
    ensures var out := ReplaySlots(fx, op, turn, msgIdx, acc, slots);
            && Undeclined(acc) && out.rejected == acc.rejected && Refreshes(acc.session, out.session, turn)
            && RepsAre(fx, acc.session.blocks, acc.reps, out.reps, slots)
            && forall s :: s in slots && Hit(fx, acc.session.blocks, s) ==>
                 out.session.blocks[KeyOf(fx, s)].seen == turn
  {
    if slots != [] {
      var init := slots[..|slots| - 1];
      var s := slots[|slots| - 1];
      var mid := ReplaySlots(fx, op, turn, msgIdx, acc, init);
      ReplaySlotEffect(fx, op, turn, msgIdx, mid, s);
      ReplaySlotsEffect(fx, op, turn, msgIdx, acc, init);
      assert slots == init + [s];
      assert Hit(fx, mid.session.blocks, s) <==> Hit(fx, acc.session.blocks, s);
      assert Hit(fx, acc.session.blocks, s) ==> Rep(fx, mid.session.blocks, s) == Rep(fx, acc.session.blocks, s);
    }
  }

  /** Likewise over the first n messages. */
  ghost predicate PassReps(fx: Fixed, blocks: map<Key, Entry>, chat: Chat, n: nat, reps: seq<Replacement>)
    requires n <= |chat.messages|
  {
    && (forall i, s :: 0 <= i < n && s in PlanAt(chat, i) && Hit(fx, blocks, s) ==> Rep(fx, blocks, s) in reps)
    && (forall r :: r in reps ==>
         exists i, s :: 0 <= i < n && s in PlanAt(chat, i) && Hit(fx, blocks, s) && r == Rep(fx, blocks, s))
  }

  lemma {:induction false} ReplayMessagesEffect(fx: Fixed, op: Options, turn: nat, chat: Chat, acc: Acc, n: nat)
    requires n <= |chat.messages| && acc.reps == []
    requires Undeclined(ReplayMessages(fx, op, turn, chat, acc, n))
    ensures var out := ReplayMessages(fx, op, turn, chat, acc, n);
            && Undeclined(acc) && Refreshes(acc.session, out.session, turn)
            && PassReps(fx, acc.session.blocks, chat, n, out.reps)
            && forall i, s :: 0 <= i < n && s in PlanAt(chat, i) && Hit(fx, acc.session.blocks, s) ==>
                 out.session.blocks[KeyOf(fx, s)].seen == turn
  {
    if n > 0 {
      var mid := ReplayMessages(fx, op, turn, chat, acc, n - 1);
      ReplaySlotsEffect(fx, op, turn, n - 1, mid, PlanAt(chat, n - 1));
      ReplayMessagesEffect(fx, op, turn, chat, acc, n - 1);
      var out := ReplayMessages(fx, op, turn, chat, acc, n);
      HitsAgree(fx, acc.session.blocks, mid.session.blocks);
      forall i, s | 0 <= i < n && s in PlanAt(chat, i) && Hit(fx, acc.session.blocks, s)
        ensures Rep(fx, acc.session.blocks, s) in out.reps && out.session.blocks[KeyOf(fx, s)].seen == turn
      {
        assert Hit(fx, mid.session.blocks, s);
        if i < n - 1 {
          assert Rep(fx, acc.session.blocks, s) in mid.reps;
        } else {
          assert Rep(fx, mid.session.blocks, s) in out.reps;
        }
      }
      forall r | r in out.reps
        ensures exists i, s ::
                  && 0 <= i < n && s in PlanAt(chat, i) && Hit(fx, acc.session.blocks, s)
                  && r == Rep(fx, acc.session.blocks, s)
      {
        if r in mid.reps {
          var i, s :| 0 <= i < n - 1 && s in PlanAt(chat, i) && Hit(fx, acc.session.blocks, s)
                      && r == Rep(fx, acc.session.blocks, s);
        } else {
          var s :| s in PlanAt(chat, n - 1) && Hit(fx, mid.session.blocks, s) && r == Rep(fx, mid.session.blocks, s);
          assert Hit(fx, acc.session.blocks, s) && r == Rep(fx, acc.session.blocks, s);
        }
      }
    }
  }

  lemma {:induction false} HitsAgree(fx: Fixed, a: map<Key, Entry>, b: map<Key, Entry>)
    requires a.Keys == b.Keys && forall k :: k in a ==> b[k].text == a[k].text
    ensures forall s :: Hit(fx, a, s) <==> Hit(fx, b, s)
    ensures forall s :: Hit(fx, a, s) ==> Rep(fx, a, s) == Rep(fx, b, s)
  {
  }

  // ---- one start, one slot ----

  lemma {:induction false} SameStartSameSlot(chat: Chat, i: nat, s: PlanSlot, i': nat, s': PlanSlot)
    requires WellFormed(chat) && i < |chat.messages| && i' < |chat.messages|
    requires s in PlanAt(chat, i) && s' in PlanAt(chat, i') && Replayable(s) && Replayable(s') && s.start == s'.start
    ensures i == i' && s == s'
  {
    PlanAtIsSlot(chat, i, s);
    PlanAtIsSlot(chat, i', s');
    if i < i' {
      MessageStartsAscend(chat, i + 1, i');
    } else if i' < i {
      MessageStartsAscend(chat, i' + 1, i);
    } else {
      var m := chat.messages[i];
      var a :| 0 <= a < |PlanAt(chat, i)| && PlanAt(chat, i)[a] == s;
      var b :| 0 <= b < |PlanAt(chat, i)| && PlanAt(chat, i)[b] == s';
      if a < b {
        PlanAscends(m.whole, m.parts, MessageStart(chat, i), a, b);
      } else if b < a {
        PlanAscends(m.whole, m.parts, MessageStart(chat, i), b, a);
      }
    }
  }

  /** Slots in list order have distinct starts, wherever they can be rewritten. */
  ghost predicate Apart(slots: seq<PlanSlot>) {
    forall a, b :: 0 <= a < b < |slots| && Replayable(slots[a]) && Replayable(slots[b]) ==>
      slots[a].start != slots[b].start
  }

  lemma {:induction false} PlanIsApart(chat: Chat, i: nat)
    requires WellFormed(chat) && i < |chat.messages|
    ensures Apart(PlanAt(chat, i))
  {
    var slots := PlanAt(chat, i);
    var m := chat.messages[i];
    forall a, b | 0 <= a < b < |slots| && Replayable(slots[a]) && Replayable(slots[b])
      ensures slots[a].start != slots[b].start
    {
      PlanAscends(m.whole, m.parts, MessageStart(chat, i), a, b);
      assert slots[a] in slots;
      PlanAtIsSlot(chat, i, slots[a]);
    }
  }

  lemma {:induction false} DistinctPlusOne(reps: seq<Replacement>, r: Replacement)
    requires DistinctStarts(reps) && forall q :: q in reps ==> q.start != r.start
    ensures DistinctStarts(reps + [r])
  {
    forall a, b | 0 <= a < b < |reps + [r]| ensures (reps + [r])[a].start != (reps + [r])[b].start {
      assert reps[a] in reps;
    }
  }

  lemma {:induction false} ReplaySlotsDistinct(fx: Fixed, op: Options, turn: nat, msgIdx: nat, acc: Acc,
                                               slots: seq<PlanSlot>)
    requires Undeclined(ReplaySlots(fx, op, turn, msgIdx, acc, slots))
    requires DistinctStarts(acc.reps) && Apart(slots)
    requires forall r, s :: r in acc.reps && s in slots && Replayable(s) ==> r.start != s.start
    ensures DistinctStarts(ReplaySlots(fx, op, turn, msgIdx, acc, slots).reps)
  {
    if slots != [] {
      var init := slots[..|slots| - 1];
      var s := slots[|slots| - 1];
      var mid := ReplaySlots(fx, op, turn, msgIdx, acc, init);
      ReplaySlotEffect(fx, op, turn, msgIdx, mid, s);
      ReplaySlotsEffect(fx, op, turn, msgIdx, acc, init);
      ReplaySlotsDistinct(fx, op, turn, msgIdx, acc, init);
      if Hit(fx, mid.session.blocks, s) {
        forall q | q in mid.reps ensures q.start != s.start {
          if q !in acc.reps {
            var t :| t in init && Hit(fx, acc.session.blocks, t) && q == Rep(fx, acc.session.blocks, t);
            var a :| 0 <= a < |init| && init[a] == t;
            assert slots[a] == t;
          }
        }
        DistinctPlusOne(mid.reps, Rep(fx, mid.session.blocks, s));
      }
    }
  }

  /** A replacement in an earlier message starts elsewhere than a slot of message n. */
  lemma {:induction false} EarlierElsewhere(fx: Fixed, op: Options, turn: nat, chat: Chat, acc: Acc, n: nat,
                                            r: Replacement, s: PlanSlot)
    requires WellFormed(chat) && n < |chat.messages| && acc.reps == []
    requires Undeclined(ReplayMessages(fx, op, turn, chat, acc, n))
    requires r in ReplayMessages(fx, op, turn, chat, acc, n).reps
    requires s in PlanAt(chat, n) && Replayable(s)
    ensures r.start != s.start
  {
    ReplayMessagesEffect(fx, op, turn, chat, acc, n);
    var i, t :| 0 <= i < n && t in PlanAt(chat, i) && Hit(fx, acc.session.blocks, t)
                && r == Rep(fx, acc.session.blocks, t);
    if r.start == s.start {
      SameStartSameSlot(chat, i, t, n, s);
    }
  }

  lemma {:induction false} ReplayMessagesDistinct(fx: Fixed, op: Options, turn: nat, chat: Chat, acc: Acc, n: nat)
    requires WellFormed(chat) && n <= |chat.messages| && acc.reps == []
    requires Undeclined(ReplayMessages(fx, op, turn, chat, acc, n))
    ensures DistinctStarts(ReplayMessages(fx, op, turn, chat, acc, n).reps)
  {
    if n > 0 {
      var mid := ReplayMessages(fx, op, turn, chat, acc, n - 1);
      ReplaySlotsEffect(fx, op, turn, n - 1, mid, PlanAt(chat, n - 1));
      ReplayMessagesEffect(fx, op, turn, chat, acc, n - 1);
      ReplayMessagesDistinct(fx, op, turn, chat, acc, n - 1);
      PlanIsApart(chat, n - 1);
      forall r, s | r in mid.reps && s in PlanAt(chat, n - 1) && Replayable(s) ensures r.start != s.start {
        EarlierElsewhere(fx, op, turn, chat, acc, n - 1, r, s);
      }
      ReplaySlotsDistinct(fx, op, turn, n - 1, mid, PlanAt(chat, n - 1));
    }
  }

  // ---- what the fresh pass does ----

  /** A replacement written over slot s. */
  ghost predicate Over(r: Replacement, s: PlanSlot) { r.start == s.start && r.end == s.end }

  ghost predicate Unclaimed(claimed: set<int>, s: PlanSlot) { Replayable(s) && s.start !in claimed }

  /** Keys are never empty, as no hexadecimal digest is. */
  ghost predicate KeysNonEmpty(fx: Fixed) { forall t :: fx.computeKey(t) != "" }

  /** Old entries stay unless an unclaimed slot of the list carries their key; every new
      replacement lies over an unclaimed slot whose key was recorded this turn. */
  ghost predicate FreshEffect(fx: Fixed, turn: nat, claimed: set<int>, acc: Acc, out: Acc, slots: seq<PlanSlot>) {
    && out.session.turn == acc.session.turn && out.session.sentCount == acc.session.sentCount
    && acc.session.blocks.Keys <= out.session.blocks.Keys
    && (forall k | k in out.session.blocks
                && (k !in acc.session.blocks || out.session.blocks[k] != acc.session.blocks[k]) ::
          out.session.blocks[k].seen == turn && exists s :: s in slots && Unclaimed(claimed, s) && KeyOf(fx, s) == k)
    && (forall r :: r in acc.reps ==> r in out.reps)
    && (forall r :: r in out.reps && r !in acc.reps ==>
          exists s :: s in slots && Unclaimed(claimed, s) && Over(r, s) && KeyOf(fx, s) in out.session.blocks)
  }

  /** What the fresh pass would put in a slot's place. */
  ghost function FreshValue(fx: Fixed, op: Options, chat: Chat, s: PlanSlot): string {
    if s.kind == ImageData then
      match Image.FitImage(fx.codec, s.text, s.mediaType)
      case Declined => ""
      case Fitted(b64, _, _) => b64
    else BlockOf(fx, op, op.context(chat, s.toolUseID), s.text).replacement
  }

  ghost function Written(fx: Fixed, op: Options, chat: Chat, s: PlanSlot): Replacement {
    Replacement(s.start, s.end, fx.encode(FreshValue(fx, op, chat, s)))
  }

  /** A slot is either left as it was, or rewritten and recorded under its key. */
  ghost predicate SlotEffect(fx: Fixed, op: Options, turn: nat, chat: Chat, claimed: set<int>, acc: Acc, out: Acc,
                             s: PlanSlot) {
    || (out.session == acc.session && out.reps == acc.reps)
    || (Unclaimed(claimed, s) && out.reps == acc.reps + [Written(fx, op, chat, s)]
        && out.session == Apply(acc.session, Keep(turn, KeyOf(fx, s), FreshValue(fx, op, chat, s))))
  }

  lemma {:induction false} FreshSlotEffect(fx: Fixed, op: Options, turn: nat, chat: Chat, msgIdx: nat,
                                           claimed: set<int>, acc: Acc, s: PlanSlot)
    requires KeysNonEmpty(fx)
    ensures SlotEffect(fx, op, turn, chat, claimed, acc, FreshSlot(fx, op, true, turn, chat, msgIdx, claimed, acc, s),
                       s)
  {
  }

  lemma {:induction false} FreshSlotsEffect(fx: Fixed, op: Options, turn: nat, chat: Chat, msgIdx: nat,
                                            claimed: set<int>, acc: Acc, slots: seq<PlanSlot>)
    requires KeysNonEmpty(fx)
    ensures FreshEffect(fx, turn, claimed, acc, FreshSlots(fx, op, true, turn, chat, msgIdx, claimed, acc, slots),
                        slots)
  {
    if slots != [] {
      var init := slots[..|slots| - 1];
      var s := slots[|slots| - 1];
      var mid := FreshSlots(fx, op, true, turn, chat, msgIdx, claimed, acc, init);
      FreshSlotsEffect(fx, op, turn, chat, msgIdx, claimed, acc, init);
      FreshSlotEffect(fx, op, turn, chat, msgIdx, claimed, mid, s);
      FreshEffectExtends(fx, op, turn, chat, claimed, acc, mid,
                         FreshSlots(fx, op, true, turn, chat, msgIdx, claimed, acc, slots), init, s);
      assert slots == init + [s];
    }
  }

  lemma {:induction false} FreshEffectExtends(fx: Fixed, op: Options, turn: nat, chat: Chat, claimed: set<int>,
                                              acc: Acc, mid: Acc, out: Acc, init: seq<PlanSlot>, s: PlanSlot)
    requires FreshEffect(fx, turn, claimed, acc, mid, init) && SlotEffect(fx, op, turn, chat, claimed, mid, out, s)
    ensures FreshEffect(fx, turn, claimed, acc, out, init + [s])
  {
    var slots := init + [s];
    assert s in slots && forall t :: t in init ==> t in slots;
    forall k | k in out.session.blocks && (k !in acc.session.blocks || out.session.blocks[k] != acc.session.blocks[k])
      ensures out.session.blocks[k].seen == turn && exists t :: t in slots && Unclaimed(claimed, t) && KeyOf(fx, t) == k
    {
      if k in mid.session.blocks && out.session.blocks[k] == mid.session.blocks[k] {
        var t :| t in init && Unclaimed(claimed, t) && KeyOf(fx, t) == k;
        assert t in slots;
      }
    }
    forall r | r in out.reps && r !in acc.reps
      ensures exists t :: t in slots && Unclaimed(claimed, t) && Over(r, t) && KeyOf(fx, t) in out.session.blocks
    {
      if r in mid.reps {
        var t :| t in init && Unclaimed(claimed, t) && Over(r, t) && KeyOf(fx, t) in mid.session.blocks;
        assert t in slots;
      } else {
        assert r == Written(fx, op, chat, s);
      }
    }
  }

  lemma {:induction false} FreshSlotsDistinct(fx: Fixed, op: Options, turn: nat, chat: Chat, msgIdx: nat,
                                              claimed: set<int>, acc: Acc, slots: seq<PlanSlot>)
    requires KeysNonEmpty(fx) && DistinctStarts(acc.reps) && Apart(slots) && claimed == Starts(acc.reps)
    ensures DistinctStarts(FreshSlots(fx, op, true, turn, chat, msgIdx, claimed, acc, slots).reps)
  {
    if slots != [] {
      var init := slots[..|slots| - 1];
      var s := slots[|slots| - 1];
      var mid := FreshSlots(fx, op, true, turn, chat, msgIdx, claimed, acc, init);
      FreshSlotsEffect(fx, op, turn, chat, msgIdx, claimed, acc, init);
      ApartPrefix(slots);
      FreshSlotsDistinct(fx, op, turn, chat, msgIdx, claimed, acc, init);
      FreshSlotEffect(fx, op, turn, chat, msgIdx, claimed, mid, s);
      var out := FreshSlots(fx, op, true, turn, chat, msgIdx, claimed, acc, slots);
      if out.reps != mid.reps {
        StartIsFree(fx, turn, claimed, acc, mid, slots);
        DistinctPlusOne(mid.reps, Written(fx, op, chat, s));
      }
    }
  }

  lemma {:induction false} StartIsFree(fx: Fixed, turn: nat, claimed: set<int>, acc: Acc, mid: Acc,
                                       slots: seq<PlanSlot>)
    requires slots != [] && Apart(slots) && claimed == Starts(acc.reps)
    requires FreshEffect(fx, turn, claimed, acc, mid, slots[..|slots| - 1]) && Unclaimed(claimed, slots[|slots| - 1])
    ensures forall q :: q in mid.reps ==> q.start != slots[|slots| - 1].start
  {
    var s := slots[|slots| - 1];
    forall q | q in mid.reps ensures q.start != s.start {
      if q in acc.reps {
        assert q.start in claimed;
      } else {
        var init := slots[..|slots| - 1];
        var t :| t in init && Unclaimed(claimed, t) && Over(q, t) && KeyOf(fx, t) in mid.session.blocks;
        var a :| 0 <= a < |init| && init[a] == t;
        assert slots[a] == t;
      }
    }
  }

  lemma {:induction false} ApartPrefix(slots: seq<PlanSlot>)
    requires slots != [] && Apart(slots)
    ensures Apart(slots[..|slots| - 1])
  {
  }
}
