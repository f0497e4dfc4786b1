/** What every dispatch keeps: each marker it sends resolves, and tokens only fall. */
module DispatchSafety {

  import opened Common
  import opened Text
  import opened Splice
  import opened Marker
  import opened Replay
  import opened LiveZone
  import opened BodyLayout
  import opened PrefixStability
  import opened ReplayRuns
  import Image

  // ---- every marker on the wire resolves ----

  ghost predicate IsText(s: PlanSlot) { Replayable(s) && s.kind != ImageData }

  /** One of the two digests a text is stored under. */
  ghost predicate OwnDigest(fx: Fixed, text: string, h: Key) { h == fx.computeKey(text) || h == fx.computeMD5(text) }

  /** Writes under a text's canonical key hold that text: the digests of the texts
      at hand do not collide, and the router stages nothing else under them. */
  ghost predicate HonestDigests(fx: Fixed, op: Options, texts: set<string>) {
    && (forall t, u :: t in texts && u in texts && fx.computeKey(t) == fx.computeKey(u) ==> t == u)
    && (forall t, u :: t in texts && u in texts && fx.computeMD5(t) == fx.computeKey(u) ==> t == u)
    && (op.route.Some? ==>
          forall t, ctx, w :: t in texts && w in op.route.value(t, ctx).writes ==> HonestWrite(fx, texts, w.0, w.1))
  }

  ghost predicate HonestWrite(fx: Fixed, texts: set<string>, hash: Key, payload: string) {
    forall u :: u in texts && hash == fx.computeKey(u) ==> payload == u
  }

  ghost predicate Sound(st: StoreState) { st.readBack <= st.entries.Keys }

  /** From st on to st', nothing read back is lost, nor a canonical entry changed. */
  ghost predicate Keeps(fx: Fixed, texts: set<string>, st: StoreState, st': StoreState) {
    && (Sound(st) ==> Sound(st')) && st.readBack <= st'.readBack
    && (Sound(st) ==> forall u :: u in texts && fx.computeKey(u) in st.readBack && st.entries[fx.computeKey(u)] == u ==>
          st'.entries[fx.computeKey(u)] == u)
  }

  lemma {:induction false} KeepsTrans(fx: Fixed, texts: set<string>, a: StoreState, b: StoreState, c: StoreState)
    requires Keeps(fx, texts, a, b) && Keeps(fx, texts, b, c)
    ensures Keeps(fx, texts, a, c)
  {
  }

  lemma {:induction false} PutKeeps(fx: Fixed, lose: (nat, Key) -> bool, texts: set<string>, st: StoreState,
                                    hash: Key, payload: string)
    requires HonestWrite(fx, texts, hash, payload)
    ensures Keeps(fx, texts, st, StorePut(lose, st, hash, payload))
  {
  }

  lemma {:induction false} GetKeeps(fx: Fixed, lose: (nat, Key) -> bool, texts: set<string>, st: StoreState, hash: Key)
    ensures Keeps(fx, texts, st, StoreGet(lose, st, hash).0)
  {
  }

  lemma {:induction false} GetAllKeeps(fx: Fixed, lose: (nat, Key) -> bool, texts: set<string>, st: StoreState,
                                       hs: seq<Key>)
    ensures Keeps(fx, texts, st, GetAll(lose, st, hs).0)
    ensures GetAll(lose, st, hs).1 ==> forall h :: h in hs ==> h in GetAll(lose, st, hs).0.readBack
    decreases |hs|
  {
    if hs != [] {
      var g := StoreGet(lose, st, hs[0]);
      GetKeeps(fx, lose, texts, st, hs[0]);
      if g.1.Some? {
        GetAllKeeps(fx, lose, texts, g.0, hs[1..]);
        KeepsTrans(fx, texts, st, g.0, GetAll(lose, g.0, hs[1..]).0);
        assert hs == [hs[0]] + hs[1..];
      }
    }
  }

  /** The canonical entry holds the original and every hash the text names is
      present, all of it read back. */
  ghost predicate Answered(st: StoreState, hash: Key, original: string, replacement: string) {
    && Sound(st) && hash in st.readBack && st.entries[hash] == original
    && forall h :: h in Hashes(replacement) ==> h in st.readBack
  }

  lemma {:induction false} ResolvesKeeps(fx: Fixed, lose: (nat, Key) -> bool, texts: set<string>, st: StoreState,
                                         original: string, replacement: string)
    requires original in texts && Sound(st)
    ensures var r := Resolves(lose, st, fx.computeKey(original), original, replacement);
            Keeps(fx, texts, st, r.0) && (r.1 ==> Answered(r.0, fx.computeKey(original), original, replacement))
  {
    var hash := fx.computeKey(original);
    var g := StoreGet(lose, st, hash);
    GetKeeps(fx, lose, texts, st, hash);
    if g.1 == Some(original) {
      GetAllKeeps(fx, lose, texts, g.0, Hashes(replacement));
      KeepsTrans(fx, texts, st, g.0, GetAll(lose, g.0, Hashes(replacement)).0);
    }
  }

  lemma {:induction false} RefreshedKeeps(fx: Fixed, op: Options, texts: set<string>, st: StoreState, text: string,
                                          compressed: string)
    requires text in texts && Sound(st) && HonestDigests(fx, op, texts)
    ensures var r := Refreshed(fx, op, st, text, compressed);
            Keeps(fx, texts, st, r.0) && (r.1 ==> Answered(r.0, fx.computeKey(text), text, compressed))
  {
    var s1 := StorePut(op.lose, st, fx.computeKey(text), text);
    PutKeeps(fx, op.lose, texts, st, fx.computeKey(text), text);
    var md5 := fx.computeMD5(text);
    var s2 := if Contains(compressed, md5) then StorePut(op.lose, s1, md5, text) else s1;
    PutKeeps(fx, op.lose, texts, s1, md5, text);
    assert Keeps(fx, texts, s1, s2);
    KeepsTrans(fx, texts, st, s1, s2);
    ResolvesKeeps(fx, op.lose, texts, s2, text, compressed);
    KeepsTrans(fx, texts, st, s2, Refreshed(fx, op, st, text, compressed).0);
  }

  lemma {:induction false} StagedFromWrites(writes: seq<(Key, string)>)
    ensures forall h :: h in StageAll(writes).payloads ==> (h, StageAll(writes).payloads[h]) in writes
  {
    if writes != [] {
      var init := writes[..|writes| - 1];
      StagedFromWrites(init);
      assert writes == init + [writes[|writes| - 1]];
    }
  }

  lemma {:induction false} CommittedKeeps(fx: Fixed, lose: (nat, Key) -> bool, texts: set<string>, st: StoreState,
                                          staged: Staged, n: nat)
    requires n <= |staged.hashes| && Consistent(staged)
    requires forall h :: h in staged.payloads ==> HonestWrite(fx, texts, h, staged.payloads[h])
    ensures Keeps(fx, texts, st, Committed(lose, st, staged, n))
  {
    if n > 0 {
      CommittedKeeps(fx, lose, texts, st, staged, n - 1);
      var h := staged.hashes[n - 1];
      assert h in staged.hashes;
      var mid := Committed(lose, st, staged, n - 1);
      PutKeeps(fx, lose, texts, mid, h, staged.payloads[h]);
      KeepsTrans(fx, texts, st, mid, Committed(lose, st, staged, n));
    }
  }

  lemma {:induction false} BlockKeeps(fx: Fixed, op: Options, texts: set<string>, ctx: string, text: string,
                                      st: StoreState)
    requires text in texts && HonestDigests(fx, op, texts)
    ensures Keeps(fx, texts, st, StoreAfterBlock(fx, op, ctx, text, st))
  {
    if BlockOf(fx, op, ctx, text).accepted {
      var writes := op.route.value(text, ctx).writes;
      StageAllConsistent(writes);
      StagedFromWrites(writes);
      CommittedKeeps(fx, op.lose, texts, st, StageAll(writes), |StageAll(writes).hashes|);
    }
  }

  /** Replacement r puts text c in the place of slot s: what the session had recorded
      under its key when the turn opened, or what the fresh pass makes of it. If s holds
      text, everything c names is answered. */
  ghost predicate BackedBy(fx: Fixed, op: Options, chat: Chat, blocks: map<Key, Entry>, st: StoreState,
                           r: Replacement, s: PlanSlot, c: string) {
    && Replayable(s) && r == Replacement(s.start, s.end, fx.encode(c))
    && (c == FreshValue(fx, op, chat, s) || (KeyOf(fx, s) in blocks && c == blocks[KeyOf(fx, s)].text))
    && (IsText(s) ==> Answered(st, fx.computeKey(s.text), s.text, c))
  }

  ghost predicate Backed(fx: Fixed, op: Options, chat: Chat, blocks: map<Key, Entry>, st: StoreState, r: Replacement) {
    exists i, s, c :: 0 <= i < |chat.messages| && s in PlanAt(chat, i) && BackedBy(fx, op, chat, blocks, st, r, s, c)
  }

  ghost predicate AllBacked(fx: Fixed, op: Options, chat: Chat, blocks: map<Key, Entry>, acc: Acc) {
    Sound(acc.store) && forall r :: r in acc.reps ==> Backed(fx, op, chat, blocks, acc.store, r)
  }

  /** Every entry of a comes from b. */
  ghost predicate TextsFrom(a: map<Key, Entry>, b: map<Key, Entry>) {
    forall k :: k in a ==> k in b && a[k].text == b[k].text
  }

  ghost predicate TextsOf(chat: Chat, texts: set<string>) {
    forall i, s :: 0 <= i < |chat.messages| && s in PlanAt(chat, i) && IsText(s) ==> s.text in texts
  }

  lemma {:induction false} BackedStays(fx: Fixed, op: Options, texts: set<string>, blocks: map<Key, Entry>,
                                       chat: Chat, acc: Acc, st': StoreState)
    requires AllBacked(fx, op, chat, blocks, acc) && TextsOf(chat, texts) && Keeps(fx, texts, acc.store, st')
    ensures Sound(st') && forall r :: r in acc.reps ==> Backed(fx, op, chat, blocks, st', r)
  {
    forall r | r in acc.reps ensures Backed(fx, op, chat, blocks, st', r) {
      var i, s, c :| 0 <= i < |chat.messages| && s in PlanAt(chat, i)
                     && BackedBy(fx, op, chat, blocks, acc.store, r, s, c);
      assert BackedBy(fx, op, chat, blocks, st', r, s, c);
    }
  }

  lemma {:induction false} ReplaySlotBacked(fx: Fixed, op: Options, texts: set<string>, blocks: map<Key, Entry>,
                                            turn: nat, chat: Chat, i: nat, acc: Acc, s: PlanSlot)
    requires TextsFrom(acc.session.blocks, blocks)
    requires AllBacked(fx, op, chat, blocks, acc) && TextsOf(chat, texts) && HonestDigests(fx, op, texts) && op.hasStore
    requires i < |chat.messages| && s in PlanAt(chat, i)
    ensures AllBacked(fx, op, chat, blocks, ReplaySlot(fx, op, turn, i, acc, s))
    ensures TextsFrom(ReplaySlot(fx, op, turn, i, acc, s).session.blocks, blocks)
  {
    var out := ReplaySlot(fx, op, turn, i, acc, s);
    if Replayable(s) && KeyOf(fx, s) in acc.session.blocks {
      var c := acc.session.blocks[KeyOf(fx, s)].text;
      if IsText(s) {
        RefreshedKeeps(fx, op, texts, acc.store, s.text, c);
      }
      BackedStays(fx, op, texts, blocks, chat, acc, out.store);
      if out.reps != acc.reps {
        assert BackedBy(fx, op, chat, blocks, out.store, Replacement(s.start, s.end, fx.encode(c)), s, c);
      }
    }
  }

  lemma {:induction false} ReplaySlotsBacked(fx: Fixed, op: Options, texts: set<string>, blocks: map<Key, Entry>,
                                             turn: nat, chat: Chat, i: nat, acc: Acc, slots: seq<PlanSlot>)
    requires TextsFrom(acc.session.blocks, blocks)
    requires AllBacked(fx, op, chat, blocks, acc) && TextsOf(chat, texts) && HonestDigests(fx, op, texts) && op.hasStore
    requires i < |chat.messages| && forall s :: s in slots ==> s in PlanAt(chat, i)
    ensures AllBacked(fx, op, chat, blocks, ReplaySlots(fx, op, turn, i, acc, slots))
    ensures TextsFrom(ReplaySlots(fx, op, turn, i, acc, slots).session.blocks, blocks)
  {
    if slots != [] {
      var init := slots[..|slots| - 1];
      ReplaySlotsBacked(fx, op, texts, blocks, turn, chat, i, acc, init);
      ReplaySlotBacked(fx, op, texts, blocks, turn, chat, i, ReplaySlots(fx, op, turn, i, acc, init),
                       slots[|slots| - 1]);
    }
  }

  lemma {:induction false} ReplayMessagesBacked(fx: Fixed, op: Options, texts: set<string>, blocks: map<Key, Entry>,
                                                turn: nat, chat: Chat, acc: Acc, n: nat)
    requires TextsFrom(acc.session.blocks, blocks)
    requires AllBacked(fx, op, chat, blocks, acc) && TextsOf(chat, texts) && HonestDigests(fx, op, texts) && op.hasStore
    requires n <= |chat.messages|
    ensures AllBacked(fx, op, chat, blocks, ReplayMessages(fx, op, turn, chat, acc, n))
    ensures TextsFrom(ReplayMessages(fx, op, turn, chat, acc, n).session.blocks, blocks)
  {
    if n > 0 {
      ReplayMessagesBacked(fx, op, texts, blocks, turn, chat, acc, n - 1);
      ReplaySlotsBacked(fx, op, texts, blocks, turn, chat, n - 1, ReplayMessages(fx, op, turn, chat, acc, n - 1),
                        PlanAt(chat, n - 1));
    }
  }

  lemma {:induction false} FreshTextBacked(fx: Fixed, op: Options, replaying: bool, texts: set<string>,
                                           blocks: map<Key, Entry>, turn: nat, chat: Chat, i: nat, acc: Acc,
                                           s: PlanSlot)
    requires AllBacked(fx, op, chat, blocks, acc) && TextsOf(chat, texts) && HonestDigests(fx, op, texts)
    requires op.hasStore && KeysNonEmpty(fx)
    requires i < |chat.messages| && s in PlanAt(chat, i) && IsText(s)
    ensures AllBacked(fx, op, chat, blocks, FreshText(fx, op, replaying, turn, chat, i, acc, s))
  {
    var ctx := op.context(chat, s.toolUseID);
    var br := BlockOf(fx, op, ctx, s.text);
    var out := FreshText(fx, op, replaying, turn, chat, i, acc, s);
    var s1 := StoreAfterBlock(fx, op, ctx, s.text, acc.store);
    BlockKeeps(fx, op, texts, ctx, s.text, acc.store);
    if br.accepted {
      var s2 := StorePut(op.lose, s1, br.cacheKey, s.text);
      PutKeeps(fx, op.lose, texts, s1, br.cacheKey, s.text);
      KeepsTrans(fx, texts, acc.store, s1, s2);
      ResolvesKeeps(fx, op.lose, texts, s2, s.text, br.replacement);
      KeepsTrans(fx, texts, acc.store, s2, out.store);
    }
    BackedStays(fx, op, texts, blocks, chat, acc, out.store);
    if out.reps != acc.reps {
      assert BackedBy(fx, op, chat, blocks, out.store, Replacement(s.start, s.end, fx.encode(br.replacement)), s,
                      br.replacement);
    }
  }

  lemma {:induction false} FreshSlotBacked(fx: Fixed, op: Options, replaying: bool, texts: set<string>,
                                           blocks: map<Key, Entry>, turn: nat, chat: Chat, i: nat, claimed: set<int>,
                                           acc: Acc, s: PlanSlot)
    requires AllBacked(fx, op, chat, blocks, acc) && TextsOf(chat, texts) && HonestDigests(fx, op, texts)
    requires op.hasStore && KeysNonEmpty(fx)
    requires i < |chat.messages| && s in PlanAt(chat, i)
    ensures AllBacked(fx, op, chat, blocks, FreshSlot(fx, op, replaying, turn, chat, i, claimed, acc, s))
  {
    if s.start !in claimed {
      if IsText(s) {
        FreshTextBacked(fx, op, replaying, texts, blocks, turn, chat, i, acc, s);
      } else if s.kind == ImageData {
        var out := FreshImage(fx, op, replaying, turn, i, acc, s);
        if out.reps != acc.reps {
          var c := Image.FitImage(fx.codec, s.text, s.mediaType).b64;
          assert BackedBy(fx, op, chat, blocks, out.store, Replacement(s.start, s.end, fx.encode(c)), s, c);
        }
      }
    }
  }

  lemma {:induction false} FreshSlotsBacked(fx: Fixed, op: Options, replaying: bool, texts: set<string>,
                                            blocks: map<Key, Entry>, turn: nat, chat: Chat, i: nat,
                                            claimed: set<int>, acc: Acc, slots: seq<PlanSlot>)
    requires AllBacked(fx, op, chat, blocks, acc) && TextsOf(chat, texts) && HonestDigests(fx, op, texts)
    requires op.hasStore && KeysNonEmpty(fx)
    requires i < |chat.messages| && forall s :: s in slots ==> s in PlanAt(chat, i)
    ensures AllBacked(fx, op, chat, blocks, FreshSlots(fx, op, replaying, turn, chat, i, claimed, acc, slots))
  {
    if slots != [] {
      var init := slots[..|slots| - 1];
      FreshSlotsBacked(fx, op, replaying, texts, blocks, turn, chat, i, claimed, acc, init);
      FreshSlotBacked(fx, op, replaying, texts, blocks, turn, chat, i, claimed,
                      FreshSlots(fx, op, replaying, turn, chat, i, claimed, acc, init), slots[|slots| - 1]);
    }
  }

  lemma {:induction false} RepsAreBacked(fx: Fixed, op: Options, replaying: bool, texts: set<string>, turn: nat,
                                         chat: Chat, floor: nat, session: Session, store: StoreState)
    requires op.hasStore && KeysNonEmpty(fx) && TextsOf(chat, texts) && HonestDigests(fx, op, texts)
    requires Sound(store)
    ensures AllBacked(fx, op, chat, session.blocks, Passes(fx, op, replaying, turn, chat, floor, session, store))
  {
    var half := ReplayPass(fx, op, replaying, turn, chat, session, store);
    if replaying {
      ReplayMessagesBacked(fx, op, texts, session.blocks, turn, chat, Start(session, store), |chat.messages|);
    }
    match LatestUser(chat.messages, floor)
    case None =>
    case Some(i) =>
      FreshSlotsBacked(fx, op, replaying, texts, session.blocks, turn, chat, i, Starts(half.reps), half,
                       PlanAt(chat, i));
  }

  lemma {:induction false} FillsAreRepls(acc: seq<Replacement>, k: nat)
    requires k < |acc|
    ensures |RangesOf(acc)| == |Repls(acc)| == |acc|
    ensures Replacement(RangesOf(acc)[k].start, RangesOf(acc)[k].end, Repls(acc)[k]) == acc[k]
  {
    if k > 0 {
      FillsAreRepls(acc[1..], k - 1);
    } else if |acc| > 1 {
      FillsAreRepls(acc[1..], 0);
    }
  }

  /** What stands in range k of a forwarded body, found by the lockstep walk. */
  ghost function StandsIn(r: Result, k: nat): Bytes
    requires Walkable(r.body, 0, r.rewritten, true) && k < |WalkText(r.body, 0, r.rewritten, true).fills|
  {
    WalkText(r.body, 0, r.rewritten, true).fills[k]
  }

  lemma {:induction false} RangesHoldReps(chat: Chat, floor: nat, acc: Acc, k: nat)
    requires k < |ResultOf(chat, floor, acc).rewritten|
    ensures var r := ResultOf(chat, floor, acc);
            && Walkable(r.body, 0, r.rewritten, true) && |WalkText(r.body, 0, r.rewritten, true).fills| == |r.rewritten|
            && Replacement(r.rewritten[k].start, r.rewritten[k].end, StandsIn(r, k)) in acc.reps
  {
    var body := Render(chat);
    var taken := Accepted(body, acc.reps);
    SpliceIsFaithful(body, acc.reps);
    RangesCount(taken);
    FillsAreRepls(taken, k);
    assert taken[k] in taken;
    EveryReplacementAccountedFor(body, acc.reps, acc.reps[0]);
  }

  lemma {:induction false} RangesCount(acc: seq<Replacement>)
    ensures |RangesOf(acc)| == |acc|
  {
    if acc != [] {
      RangesCount(acc[1..]);
    }
  }

  /** Whatever the store drops or forgets along the way: what stands in each rewritten
      range of the forwarded body replaces one planned slot, by what the session had
      recorded for it or what the fresh pass makes of it; and if the slot held text, its
      canonical key holds the exact original and every hash named there is present. */
  lemma {:induction false} EveryMarkerResolves(fx: Fixed, op: Options, replaying: bool, texts: set<string>, turn: nat,
                                               chat: Chat, floor: nat, session: Session, store: StoreState, k: nat)
    requires op.hasStore && KeysNonEmpty(fx) && TextsOf(chat, texts) && HonestDigests(fx, op, texts)
    requires Sound(store)
    requires k < |ResultOf(chat, floor, Passes(fx, op, replaying, turn, chat, floor, session, store)).rewritten|
    ensures var acc := Passes(fx, op, replaying, turn, chat, floor, session, store);
            var r := ResultOf(chat, floor, acc);
            && Walkable(r.body, 0, r.rewritten, true) && |WalkText(r.body, 0, r.rewritten, true).fills| == |r.rewritten|
            && Backed(fx, op, chat, session.blocks, acc.store,
                      Replacement(r.rewritten[k].start, r.rewritten[k].end, StandsIn(r, k)))
  {
    RepsAreBacked(fx, op, replaying, texts, turn, chat, floor, session, store);
    RangesHoldReps(chat, floor, Passes(fx, op, replaying, turn, chat, floor, session, store), k);
  }

  // ---- every applied dispatch saves tokens ----

  /** What a slot held before anything rewrote it. */
  datatype Original = Original(image: bool, mediaType: string, text: string)

  function OriginalOf(s: PlanSlot): Original {
    if s.kind == ImageData then Original(true, s.mediaType, s.text) else Original(false, "", s.text)
  }

  function Payload(o: Original): string {
    if o.image then ImagePayload(o.mediaType, o.text) else o.text
  }

  ghost predicate Injective(fx: Fixed, originals: set<Original>) {
    forall a, b :: a in originals && b in originals && fx.computeKey(Payload(a)) == fx.computeKey(Payload(b)) ==> a == b
  }

  ghost predicate OriginalsOf(chat: Chat, originals: set<Original>) {
    forall i, s :: 0 <= i < |chat.messages| && s in PlanAt(chat, i) && Replayable(s) ==> OriginalOf(s) in originals
  }

  /** Every recorded text is cheaper than the original it stands for. */
  ghost predicate Cheap(fx: Fixed, originals: set<Original>, blocks: map<Key, Entry>) {
    forall o :: o in originals && fx.computeKey(Payload(o)) in blocks ==>
      Price(fx, o.image, blocks[fx.computeKey(Payload(o))].text) < Price(fx, o.image, o.text)
  }

  /** Each replacement saved at least one token. */
  ghost predicate Saving(acc: Acc) { acc.after + |acc.reps| <= acc.before }

  ghost predicate Thrifty(fx: Fixed, originals: set<Original>, acc: Acc) {
    Saving(acc) && Cheap(fx, originals, acc.session.blocks)
  }

  lemma {:induction false} RecordKeepsCheap(fx: Fixed, originals: set<Original>, session: Session, turn: nat,
                                            o: Original, c: string)
    requires Injective(fx, originals) && Cheap(fx, originals, session.blocks) && o in originals
    requires Price(fx, o.image, c) < Price(fx, o.image, o.text)
    ensures Cheap(fx, originals, Apply(session, Keep(turn, fx.computeKey(Payload(o)), c)).blocks)
  {
  }

  lemma {:induction false} ReplaySlotThrifty(fx: Fixed, op: Options, originals: set<Original>, turn: nat, i: nat,
                                             acc: Acc, s: PlanSlot)
    requires Thrifty(fx, originals, acc) && (Replayable(s) ==> OriginalOf(s) in originals)
    ensures Thrifty(fx, originals, ReplaySlot(fx, op, turn, i, acc, s))
  {
    assert KeyOf(fx, s) == fx.computeKey(Payload(OriginalOf(s)));
  }

  lemma {:induction false} ReplaySlotsThrifty(fx: Fixed, op: Options, originals: set<Original>, turn: nat, i: nat,
                                              acc: Acc, slots: seq<PlanSlot>)
    requires Thrifty(fx, originals, acc) && forall s :: s in slots && Replayable(s) ==> OriginalOf(s) in originals
    ensures Thrifty(fx, originals, ReplaySlots(fx, op, turn, i, acc, slots))
  {
    if slots != [] {
      var init := slots[..|slots| - 1];
      ReplaySlotsThrifty(fx, op, originals, turn, i, acc, init);
      ReplaySlotThrifty(fx, op, originals, turn, i, ReplaySlots(fx, op, turn, i, acc, init), slots[|slots| - 1]);
    }
  }

  lemma {:induction false} ReplayMessagesThrifty(fx: Fixed, op: Options, originals: set<Original>, turn: nat,
                                                 chat: Chat, acc: Acc, n: nat)
    requires Thrifty(fx, originals, acc) && OriginalsOf(chat, originals) && n <= |chat.messages|
    ensures Thrifty(fx, originals, ReplayMessages(fx, op, turn, chat, acc, n))
  {
    if n > 0 {
      ReplayMessagesThrifty(fx, op, originals, turn, chat, acc, n - 1);
      ReplaySlotsThrifty(fx, op, originals, turn, n - 1, ReplayMessages(fx, op, turn, chat, acc, n - 1),
                         PlanAt(chat, n - 1));
    }
  }

  lemma {:induction false} FreshSlotThrifty(fx: Fixed, op: Options, replaying: bool, originals: set<Original>,
                                            turn: nat, chat: Chat, i: nat, claimed: set<int>, acc: Acc, s: PlanSlot)
    requires Thrifty(fx, originals, acc) && Injective(fx, originals) && Image.Faithful(fx.codec)
    requires Replayable(s) ==> OriginalOf(s) in originals
    ensures Thrifty(fx, originals, FreshSlot(fx, op, replaying, turn, chat, i, claimed, acc, s))
  {
    if s.start !in claimed && Replayable(s) {
      if s.kind == ImageData {
        var fit := Image.FitImage(fx.codec, s.text, s.mediaType);
        if op.imageFit && fit.Fitted? {
          Image.FittingIsPricedAsReplay(fx.codec, s.text, s.mediaType);
          RecordKeepsCheap(fx, originals, acc.session, turn, OriginalOf(s), fit.b64);
        }
      } else {
        var br := BlockOf(fx, op, op.context(chat, s.toolUseID), s.text);
        if br.accepted {
          RecordKeepsCheap(fx, originals, acc.session, turn, OriginalOf(s), br.replacement);
        }
      }
    }
  }

  lemma {:induction false} FreshSlotsThrifty(fx: Fixed, op: Options, replaying: bool, originals: set<Original>,
                                             turn: nat, chat: Chat, i: nat, claimed: set<int>, acc: Acc,
                                             slots: seq<PlanSlot>)
    requires Thrifty(fx, originals, acc) && Injective(fx, originals) && Image.Faithful(fx.codec)
    requires forall s :: s in slots && Replayable(s) ==> OriginalOf(s) in originals
    ensures Thrifty(fx, originals, FreshSlots(fx, op, replaying, turn, chat, i, claimed, acc, slots))
  {
    if slots != [] {
      var init := slots[..|slots| - 1];
      FreshSlotsThrifty(fx, op, replaying, originals, turn, chat, i, claimed, acc, init);
      FreshSlotThrifty(fx, op, replaying, originals, turn, chat, i, claimed,
                       FreshSlots(fx, op, replaying, turn, chat, i, claimed, acc, init), slots[|slots| - 1]);
    }
  }

  /** One dispatch keeps the session's entries cheap and saves at least one token
      per replacement, replayed blocks included. */
  lemma {:induction false} DispatchIsThrifty(fx: Fixed, op: Options, replaying: bool, originals: set<Original>,
                                             turn: nat, chat: Chat, floor: nat, session: Session, store: StoreState)
    requires OriginalsOf(chat, originals) && Injective(fx, originals) && Image.Faithful(fx.codec)
    requires Cheap(fx, originals, session.blocks)
    ensures Thrifty(fx, originals, Passes(fx, op, replaying, turn, chat, floor, session, store))
  {
    var half := ReplayPass(fx, op, replaying, turn, chat, session, store);
    if replaying {
      ReplayMessagesThrifty(fx, op, originals, turn, chat, Start(session, store), |chat.messages|);
    }
    match LatestUser(chat.messages, floor)
    case None =>
    case Some(i) =>
      FreshSlotsThrifty(fx, op, replaying, originals, turn, chat, i, Starts(half.reps), half, PlanAt(chat, i));
  }

  lemma {:induction false} RunStaysCheap(fx: Fixed, originals: set<Original>, session: Session, turns: seq<TurnInput>,
                                         n: nat)
    requires n <= |turns| && Injective(fx, originals) && Image.Faithful(fx.codec)
    requires Cheap(fx, originals, session.blocks)
    requires forall i :: 0 <= i < |turns| ==> OriginalsOf(turns[i].chat, originals)
    ensures Cheap(fx, originals, Before(fx, session, turns, n).blocks)
  {
    if n > 0 {
      RunStaysCheap(fx, originals, session, turns, n - 1);
      BeforeNext(fx, session, turns, n - 1);
      OneTurnStaysCheap(fx, originals, Before(fx, session, turns, n - 1), turns[n - 1]);
    }
  }

  lemma {:induction false} OneTurnStaysCheap(fx: Fixed, originals: set<Original>, session: Session, t: TurnInput)
    requires Injective(fx, originals) && Image.Faithful(fx.codec) && OriginalsOf(t.chat, originals)
    requires Cheap(fx, originals, session.blocks)
    ensures Thrifty(fx, originals, TurnAcc(fx, session, t))
  {
    var o := Opening(session, t);
    DispatchIsThrifty(fx, t.op, true, originals, o.turn, t.chat, session.sentCount, o, t.store);
  }

  /** On every turn of every run that starts with an empty session, an applied
      dispatch counts strictly fewer tokens after than before. */
  lemma {:induction false} AppliedMeansFewerTokens(fx: Fixed, originals: set<Original>, turns: seq<TurnInput>, n: nat)
    requires n < |turns| && Injective(fx, originals) && Image.Faithful(fx.codec)
    requires forall i :: 0 <= i < |turns| ==> OriginalsOf(turns[i].chat, originals)
    ensures var s := Before(fx, FRESH, turns, n);
            var r := ResultOf(turns[n].chat, s.sentCount, TurnAcc(fx, s, turns[n]));
            r.applied ==> r.tokensAfter < r.tokensBefore
  {
    RunStaysCheap(fx, originals, FRESH, turns, n);
    OneTurnStaysCheap(fx, originals, Before(fx, FRESH, turns, n), turns[n]);
  }
}
