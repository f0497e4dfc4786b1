/** A dispatch stores nothing but what an accepted or a replayed block names. */
module NoOrphans {

  import opened Common
  import opened Marker
  import opened Replay
  import opened LiveZone
  import opened PrefixStability
  import opened DispatchSafety

  /** An entry under k has a block to answer for: one the gate accepted, under its
      canonical digest or by a write of the router's; or one the session has recorded,
      refreshed under either digest. */
  ghost predicate WantedBy(fx: Fixed, op: Options, chat: Chat, blocks: map<Key, Entry>, s: PlanSlot, k: Key) {
    var ctx := op.context(chat, s.toolUseID);
    || (BlockOf(fx, op, ctx, s.text).accepted
        && (k == fx.computeKey(s.text) || exists w :: w in op.route.value(s.text, ctx).writes && w.0 == k))
    || (KeyOf(fx, s) in blocks && OwnDigest(fx, s.text, k))
  }

  ghost predicate Wanted(fx: Fixed, op: Options, chat: Chat, blocks: map<Key, Entry>, k: Key) {
    exists i, s :: 0 <= i < |chat.messages| && s in PlanAt(chat, i) && IsText(s) && WantedBy(fx, op, chat, blocks, s, k)
  }

  /** The new entries of b are all wanted. */
  ghost predicate AddsWanted(fx: Fixed, op: Options, chat: Chat, blocks: map<Key, Entry>, a: StoreState,
                             b: StoreState) {
    forall k :: k in b.entries ==> k in a.entries || Wanted(fx, op, chat, blocks, k)
  }

  lemma {:induction false} GetAllAddsNothing(lose: (nat, Key) -> bool, s: StoreState, hs: seq<Key>)
    ensures GetAll(lose, s, hs).0.entries.Keys <= s.entries.Keys
    decreases |hs|
  {
    if hs != [] && StoreGet(lose, s, hs[0]).1.Some? {
      GetAllAddsNothing(lose, StoreGet(lose, s, hs[0]).0, hs[1..]);
    }
  }

  lemma {:induction false} ResolvesAddsNothing(lose: (nat, Key) -> bool, s: StoreState, hash: Key, original: string,
                                               replacement: string)
    ensures Resolves(lose, s, hash, original, replacement).0.entries.Keys <= s.entries.Keys
  {
    GetAllAddsNothing(lose, StoreGet(lose, s, hash).0, Hashes(replacement));
  }

  lemma {:induction false} CommitAdds(lose: (nat, Key) -> bool, s: StoreState, staged: Staged, n: nat)
    requires n <= |staged.hashes| && Consistent(staged)
    ensures forall k :: k in Committed(lose, s, staged, n).entries ==> k in s.entries || k in staged.hashes
  {
    if n > 0 {
      CommitAdds(lose, s, staged, n - 1);
      assert staged.hashes[n - 1] in staged.hashes;
    }
  }

  lemma {:induction false} BlockAdds(fx: Fixed, op: Options, ctx: string, text: string, st: StoreState)
    ensures forall k :: k in StoreAfterBlock(fx, op, ctx, text, st).entries && k !in st.entries ==>
      BlockOf(fx, op, ctx, text).accepted && exists w :: w in op.route.value(text, ctx).writes && w.0 == k
  {
    if BlockOf(fx, op, ctx, text).accepted {
      var writes := op.route.value(text, ctx).writes;
      var staged := StageAll(writes);
      StageAllConsistent(writes);
      StagedFromWrites(writes);
      CommitAdds(op.lose, st, staged, |staged.hashes|);
      forall k | k in StoreAfterBlock(fx, op, ctx, text, st).entries && k !in st.entries
        ensures exists w :: w in writes && w.0 == k
      {
        assert (k, staged.payloads[k]) in writes;
      }
    }
  }

  lemma {:induction false} ReplaySlotAdds(fx: Fixed, op: Options, turn: nat, chat: Chat, blocks: map<Key, Entry>,
                                          i: nat, acc: Acc, s: PlanSlot)
    requires i < |chat.messages| && s in PlanAt(chat, i) && TextsFrom(acc.session.blocks, blocks)
    ensures var out := ReplaySlot(fx, op, turn, i, acc, s);
            AddsWanted(fx, op, chat, blocks, acc.store, out.store) && TextsFrom(out.session.blocks, blocks)
  {
    var out := ReplaySlot(fx, op, turn, i, acc, s);
    if IsText(s) && KeyOf(fx, s) in acc.session.blocks && op.hasStore {
      var c, md5 := acc.session.blocks[KeyOf(fx, s)].text, fx.computeMD5(s.text);
      var s1 := StorePut(op.lose, acc.store, fx.computeKey(s.text), s.text);
      ResolvesAddsNothing(op.lose, s1, fx.computeKey(s.text), s.text, c);
      ResolvesAddsNothing(op.lose, StorePut(op.lose, s1, md5, s.text), fx.computeKey(s.text), s.text, c);
      forall k | k in out.store.entries && k !in acc.store.entries ensures Wanted(fx, op, chat, blocks, k) {
        assert OwnDigest(fx, s.text, k) && WantedBy(fx, op, chat, blocks, s, k);
      }
    }
  }

  lemma {:induction false} ReplaySlotsAdd(fx: Fixed, op: Options, turn: nat, chat: Chat, blocks: map<Key, Entry>,
                                          i: nat, acc: Acc, slots: seq<PlanSlot>)
    requires i < |chat.messages| && (forall s :: s in slots ==> s in PlanAt(chat, i))
    requires TextsFrom(acc.session.blocks, blocks)
    ensures var out := ReplaySlots(fx, op, turn, i, acc, slots);
            AddsWanted(fx, op, chat, blocks, acc.store, out.store) && TextsFrom(out.session.blocks, blocks)
  {
    if slots != [] {
      var init := slots[..|slots| - 1];
      ReplaySlotsAdd(fx, op, turn, chat, blocks, i, acc, init);
      ReplaySlotAdds(fx, op, turn, chat, blocks, i, ReplaySlots(fx, op, turn, i, acc, init), slots[|slots| - 1]);
    }
  }

  lemma {:induction false} ReplayMessagesAdd(fx: Fixed, op: Options, turn: nat, chat: Chat, blocks: map<Key, Entry>,
                                             acc: Acc, n: nat)
    requires n <= |chat.messages| && TextsFrom(acc.session.blocks, blocks)
    ensures var out := ReplayMessages(fx, op, turn, chat, acc, n);
            AddsWanted(fx, op, chat, blocks, acc.store, out.store) && TextsFrom(out.session.blocks, blocks)
  {
    if n > 0 {
      ReplayMessagesAdd(fx, op, turn, chat, blocks, acc, n - 1);
      ReplaySlotsAdd(fx, op, turn, chat, blocks, n - 1, ReplayMessages(fx, op, turn, chat, acc, n - 1),
                     PlanAt(chat, n - 1));
    }
  }

  lemma {:induction false} FreshTextAdds(fx: Fixed, op: Options, replaying: bool, turn: nat, chat: Chat,
                                         blocks: map<Key, Entry>, i: nat, acc: Acc, s: PlanSlot)
    requires i < |chat.messages| && s in PlanAt(chat, i) && IsText(s)
    ensures AddsWanted(fx, op, chat, blocks, acc.store, FreshText(fx, op, replaying, turn, chat, i, acc, s).store)
  {
    var ctx := op.context(chat, s.toolUseID);
    var br := BlockOf(fx, op, ctx, s.text);
    var s1 := StoreAfterBlock(fx, op, ctx, s.text, acc.store);
    BlockAdds(fx, op, ctx, s.text, acc.store);
    ResolvesAddsNothing(op.lose, StorePut(op.lose, s1, br.cacheKey, s.text), br.cacheKey, s.text, br.replacement);
    var out := FreshText(fx, op, replaying, turn, chat, i, acc, s);
    forall k | k in out.store.entries && k !in acc.store.entries ensures Wanted(fx, op, chat, blocks, k) {
      assert WantedBy(fx, op, chat, blocks, s, k);
    }
  }

  lemma {:induction false} FreshSlotsAdd(fx: Fixed, op: Options, replaying: bool, turn: nat, chat: Chat,
                                         blocks: map<Key, Entry>, i: nat, claimed: set<int>, acc: Acc,
                                         slots: seq<PlanSlot>)
    requires i < |chat.messages| && forall s :: s in slots ==> s in PlanAt(chat, i)
    ensures AddsWanted(fx, op, chat, blocks, acc.store,
                       FreshSlots(fx, op, replaying, turn, chat, i, claimed, acc, slots).store)
  {
    if slots != [] {
      var init, s := slots[..|slots| - 1], slots[|slots| - 1];
      var mid := FreshSlots(fx, op, replaying, turn, chat, i, claimed, acc, init);
      FreshSlotsAdd(fx, op, replaying, turn, chat, blocks, i, claimed, acc, init);
      if IsText(s) {
        FreshTextAdds(fx, op, replaying, turn, chat, blocks, i, mid, s);
      }
    }
  }

  /** Whatever a dispatch leaves in the store was there before, or belongs to a block the
      gate accepted or one the session has recorded; a rejected block leaves nothing. */
  lemma {:induction false} DispatchLeavesNoOrphan(fx: Fixed, op: Options, replaying: bool, turn: nat, chat: Chat,
                                                  floor: nat, session: Session, store: StoreState)
    ensures AddsWanted(fx, op, chat, session.blocks, store,
                       Passes(fx, op, replaying, turn, chat, floor, session, store).store)
  {
    var half := ReplayPass(fx, op, replaying, turn, chat, session, store);
    if replaying {
      ReplayMessagesAdd(fx, op, turn, chat, session.blocks, Start(session, store), |chat.messages|);
    }
    match LatestUser(chat.messages, floor)
    case None =>
    case Some(i) =>
      FreshSlotsAdd(fx, op, replaying, turn, chat, session.blocks, i, Starts(half.reps), half, PlanAt(chat, i));
  }
}
