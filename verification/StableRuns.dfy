/** When the cached prefix is stable, from what is known before each call. */
module StableRuns {

  import opened Common
  import opened Text
  import opened Splice
  import opened Marker
  import opened Replay
  import opened LiveZone
  import opened BodyLayout
  import opened PrefixStability
  import opened ReplayRuns
  import opened DispatchSafety
  import Image

  // ---- what is assumed of the collaborators ----

  /** Digests are 24 hex digits and tell the originals at hand apart. */
  ghost predicate Digests(fx: Fixed, originals: set<Original>) {
    Injective(fx, originals) && forall x :: IsHash(fx.computeKey(x))
  }

  /** During the call the store keeps what is written under the texts' digests; it may
      lose anything else, and may have lost everything between two calls. */
  ghost predicate HoldsDigests(fx: Fixed, op: Options, originals: set<Original>) {
    forall o :: o in originals && !o.image ==>
      HeldBy(op.lose, fx.computeKey(o.text)) && HeldBy(op.lose, fx.computeMD5(o.text))
  }

  ghost predicate HeldBy(lose: (nat, Key) -> bool, h: Key) { forall n :: !lose(n, h) }

  /** The router's output names no hash but the two digests of its input, and the
      second one only when the router has stored it. */
  ghost predicate NamesOwnDigests(fx: Fixed, op: Options, originals: set<Original>) {
    op.route.Some? ==>
      forall o, ctx, h :: o in originals && !o.image && h in Hashes(op.route.value(o.text, ctx).output) ==>
        && OwnDigest(fx, o.text, h)
        && (h != fx.computeKey(o.text) ==> h in StageAll(op.route.value(o.text, ctx).writes).payloads)
  }

  /** A JSON string denotes one text, so the encoding of a text is no other text's. */
  ghost predicate Legible(fx: Fixed, chat: Chat) {
    forall i, j :: 0 <= i < |chat.messages| && 0 <= j < |chat.messages[i].parts| ==>
      LegiblePart(fx, chat.messages[i].whole, chat.messages[i].parts[j])
  }

  ghost predicate LegiblePart(fx: Fixed, whole: bool, p: Part) {
    Eligible(whole, p) ==> forall c :: PartBytes(p) == fx.encode(c) ==> PlanOne(whole, p.block, 0).text == c
  }

  /** All of it, for one turn. */
  ghost predicate Inputs(fx: Fixed, originals: set<Original>, t: TurnInput) {
    && WellFormed(t.chat) && OriginalsOf(t.chat, originals) && Legible(fx, t.chat)
    && HoldsDigests(fx, t.op, originals) && NamesOwnDigests(fx, t.op, originals)
  }

  /** Each recorded text names only the digests of the text it stands for. */
  ghost predicate OwnNames(fx: Fixed, originals: set<Original>, blocks: map<Key, Entry>) {
    forall o, h | o in originals && !o.image && fx.computeKey(o.text) in blocks
                  && h in Hashes(blocks[fx.computeKey(o.text)].text) ::
      OwnDigest(fx, o.text, h)
  }

  // ---- what such a store answers ----

  lemma {:induction false} AllAnswered(lose: (nat, Key) -> bool, s: StoreState, hs: seq<Key>)
    requires forall h :: h in hs ==> h in s.entries && HeldBy(lose, h)
    ensures GetAll(lose, s, hs).1
    decreases |hs|
  {
    if hs != [] {
      assert hs[0] in hs;
      var g := StoreGet(lose, s, hs[0]);
      forall h | h in hs[1..] ensures h in g.0.entries && HeldBy(lose, h) {
        assert h in hs;
      }
      AllAnswered(lose, g.0, hs[1..]);
    }
  }

  lemma {:induction false} PutHolds(lose: (nat, Key) -> bool, s: StoreState, hash: Key, payload: string, h: Key)
    requires HeldBy(lose, hash) && HeldBy(lose, h)
    ensures hash in StorePut(lose, s, hash, payload).entries
    ensures StorePut(lose, s, hash, payload).entries[hash] == payload
    ensures h in s.entries ==> h in StorePut(lose, s, hash, payload).entries
    ensures h in s.entries && h != hash ==> StorePut(lose, s, hash, payload).entries[h] == s.entries[h]
  {
  }

  lemma {:induction false} HeldResolves(lose: (nat, Key) -> bool, s: StoreState, hash: Key, original: string,
                                        replacement: string)
    requires HeldBy(lose, hash) && hash in s.entries && s.entries[hash] == original
    requires forall h :: h in Hashes(replacement) ==> h in s.entries && HeldBy(lose, h)
    ensures Resolves(lose, s, hash, original, replacement).1
  {
    AllAnswered(lose, StoreGet(lose, s, hash).0, Hashes(replacement));
  }

  lemma {:induction false} NamedIsHeld(s: string, h: string)
    requires h in Hashes(s)
    ensures Contains(s, h)
  {
    HashesInExactly(s, h);
    var p: nat :| NamesAt(s, p, h);
    assert OccursAt(s, p + OpeningAt(s, p), h);
    ContainsIffOccurs(s, h);
  }

  /** Replay's refresh puts back what a recorded text names, whatever the store has
      lost since. */
  lemma {:induction false} RefreshResolves(fx: Fixed, op: Options, st: StoreState, text: string, c: string)
    requires HeldBy(op.lose, fx.computeKey(text)) && HeldBy(op.lose, fx.computeMD5(text))
    requires forall h :: h in Hashes(c) ==> OwnDigest(fx, text, h)
    ensures Refreshed(fx, op, st, text, c).1
  {
    var key, md5 := fx.computeKey(text), fx.computeMD5(text);
    var s1 := StorePut(op.lose, st, key, text);
    var s2 := if Contains(c, md5) then StorePut(op.lose, s1, md5, text) else s1;
    PutHolds(op.lose, st, key, text, key);
    PutHolds(op.lose, s1, md5, text, key);
    forall h | h in Hashes(c) ensures h in s2.entries && HeldBy(op.lose, h) {
      NamedIsHeld(c, h);
    }
    HeldResolves(op.lose, s2, key, text, c);
  }

  lemma {:induction false} CommitHolds(lose: (nat, Key) -> bool, s: StoreState, staged: Staged, n: nat, h: Key)
    requires n <= |staged.hashes| && Consistent(staged) && HeldBy(lose, h) && h in staged.hashes[..n]
    ensures h in Committed(lose, s, staged, n).entries
  {
    if h != staged.hashes[n - 1] {
      assert staged.hashes[..n] == staged.hashes[..n - 1] + [staged.hashes[n - 1]];
      CommitHolds(lose, s, staged, n - 1, h);
    } else {
      assert staged.hashes[n - 1] in staged.hashes;
    }
  }

  // ---- the fresh pass ----

  /** The fresh pass rewrites the slot if it reaches it: the image fits, or the block
      passes the token gate. */
  ghost predicate Taken(fx: Fixed, op: Options, chat: Chat, s: PlanSlot) {
    if s.kind == ImageData then op.imageFit && Image.FitImage(fx.codec, s.text, s.mediaType).Fitted?
    else BlockOf(fx, op, op.context(chat, s.toolUseID), s.text).accepted
  }

  /** An accepted replacement names only its original's digests. */
  lemma {:induction false} ReplacementNames(fx: Fixed, op: Options, originals: set<Original>, ctx: string,
                                            o: Original, h: Key)
    requires Digests(fx, originals) && NamesOwnDigests(fx, op, originals) && o in originals && !o.image
    requires BlockOf(fx, op, ctx, o.text).accepted && h in Hashes(BlockOf(fx, op, ctx, o.text).replacement)
    ensures OwnDigest(fx, o.text, h)
    ensures h != fx.computeKey(o.text) ==> h in StageAll(op.route.value(o.text, ctx).writes).payloads
  {
    var out := op.route.value(o.text, ctx).output;
    var key := fx.computeKey(o.text);
    if EndsWithNewline(out) {
      var before := out[..|out| - 1];
      assert out == before + ['\n'];
      assert out + "" + MarkerFor(key) == before + ['\n'] + MarkerFor(key);
      MarkedNames(before, key, h);
      if h in Hashes(before) {
        NamesGrow(before, ['\n'], h);
      }
    } else {
      assert out + "\n" + MarkerFor(key) == out + ['\n'] + MarkerFor(key);
      MarkedNames(out, key, h);
    }
  }

  /** What the gate accepts, the store answers. */
  lemma {:induction false} AcceptedResolves(fx: Fixed, op: Options, originals: set<Original>, ctx: string,
                                            o: Original, st: StoreState)
    requires Digests(fx, originals) && NamesOwnDigests(fx, op, originals) && HoldsDigests(fx, op, originals)
    requires o in originals && !o.image && BlockOf(fx, op, ctx, o.text).accepted
    ensures var key := fx.computeKey(o.text);
            Resolves(op.lose, StorePut(op.lose, StoreAfterBlock(fx, op, ctx, o.text, st), key, o.text), key, o.text,
                     BlockOf(fx, op, ctx, o.text).replacement).1
  {
    var key := fx.computeKey(o.text);
    var br := BlockOf(fx, op, ctx, o.text);
    var staged := StageAll(op.route.value(o.text, ctx).writes);
    StageAllConsistent(op.route.value(o.text, ctx).writes);
    var s1 := StoreAfterBlock(fx, op, ctx, o.text, st);
    var s2 := StorePut(op.lose, s1, key, o.text);
    PutHolds(op.lose, s1, key, o.text, key);
    forall h | h in Hashes(br.replacement) ensures h in s2.entries && HeldBy(op.lose, h) {
      ReplacementNames(fx, op, originals, ctx, o, h);
      if h != key {
        assert staged.hashes[..|staged.hashes|] == staged.hashes;
        CommitHolds(op.lose, st, staged, |staged.hashes|, h);
        PutHolds(op.lose, s1, key, o.text, h);
      }
    }
    HeldResolves(op.lose, s2, key, o.text, br.replacement);
  }

  /** Slot s is rewritten and recorded by the fresh pass. */
  ghost predicate Rewritten(fx: Fixed, op: Options, chat: Chat, claimed: set<int>, s: PlanSlot) {
    Unclaimed(claimed, s) && Taken(fx, op, chat, s)
  }

  lemma {:induction false} FreshSlotExact(fx: Fixed, op: Options, originals: set<Original>, turn: nat, chat: Chat,
                                          i: nat, claimed: set<int>, acc: Acc, s: PlanSlot)
    requires Digests(fx, originals) && NamesOwnDigests(fx, op, originals) && HoldsDigests(fx, op, originals)
    requires Replayable(s) ==> OriginalOf(s) in originals
    ensures var out := FreshSlot(fx, op, true, turn, chat, i, claimed, acc, s);
            if Rewritten(fx, op, chat, claimed, s)
            then out.reps == acc.reps + [Written(fx, op, chat, s)]
              && out.session == Apply(acc.session, Keep(turn, KeyOf(fx, s), FreshValue(fx, op, chat, s)))
            else out.reps == acc.reps && out.session == acc.session
  {
    if Unclaimed(claimed, s) && s.kind != ImageData && Taken(fx, op, chat, s) {
      AcceptedResolves(fx, op, originals, op.context(chat, s.toolUseID), OriginalOf(s), acc.store);
    }
  }

  /** What the pass over some slots recorded and wrote, exactly. */
  ghost predicate FreshExactly(fx: Fixed, op: Options, turn: nat, chat: Chat, claimed: set<int>, acc: Acc, out: Acc,
                               slots: seq<PlanSlot>) {
    && (forall s :: s in slots && Rewritten(fx, op, chat, claimed, s) ==>
          Written(fx, op, chat, s) in out.reps && KeyOf(fx, s) in out.session.blocks)
    && (forall r :: r in out.reps && r !in acc.reps ==>
          exists s :: s in slots && Rewritten(fx, op, chat, claimed, s) && r == Written(fx, op, chat, s))
    && (forall k | k in out.session.blocks
                && (k !in acc.session.blocks || out.session.blocks[k] != acc.session.blocks[k]) ::
          RecordedFor(fx, op, turn, chat, claimed, out.session.blocks[k], k, slots))
  }

  ghost predicate RecordedFor(fx: Fixed, op: Options, turn: nat, chat: Chat, claimed: set<int>, e: Entry, k: Key,
                              slots: seq<PlanSlot>) {
    exists s :: s in slots && Rewritten(fx, op, chat, claimed, s) && KeyOf(fx, s) == k
      && e == Entry(FreshValue(fx, op, chat, s), turn)
  }

  lemma {:induction false} FreshSlotsExact(fx: Fixed, op: Options, originals: set<Original>, turn: nat, chat: Chat,
                                           i: nat, claimed: set<int>, acc: Acc, slots: seq<PlanSlot>)
    requires Digests(fx, originals) && NamesOwnDigests(fx, op, originals) && HoldsDigests(fx, op, originals)
    requires forall s :: s in slots && Replayable(s) ==> OriginalOf(s) in originals
    ensures FreshExactly(fx, op, turn, chat, claimed, acc,
                         FreshSlots(fx, op, true, turn, chat, i, claimed, acc, slots), slots)
  {
    if slots != [] {
      var init := slots[..|slots| - 1];
      var s := slots[|slots| - 1];
      assert slots == init + [s];
      var mid := FreshSlots(fx, op, true, turn, chat, i, claimed, acc, init);
      FreshSlotsExact(fx, op, originals, turn, chat, i, claimed, acc, init);
      FreshSlotExact(fx, op, originals, turn, chat, i, claimed, mid, s);
      FreshExactlyNext(fx, op, turn, chat, claimed, acc, mid,
                       FreshSlots(fx, op, true, turn, chat, i, claimed, acc, slots), init, s);
    }
  }

  lemma {:induction false} FreshExactlyNext(fx: Fixed, op: Options, turn: nat, chat: Chat, claimed: set<int>,
                                            acc: Acc, mid: Acc, out: Acc, init: seq<PlanSlot>, s: PlanSlot)
    requires FreshExactly(fx, op, turn, chat, claimed, acc, mid, init)
    requires if Rewritten(fx, op, chat, claimed, s)
             then out.reps == mid.reps + [Written(fx, op, chat, s)]
               && out.session == Apply(mid.session, Keep(turn, KeyOf(fx, s), FreshValue(fx, op, chat, s)))
             else out.reps == mid.reps && out.session == mid.session
    ensures FreshExactly(fx, op, turn, chat, claimed, acc, out, init + [s])
  {
    var slots := init + [s];
    assert s in slots && forall q :: q in init ==> q in slots;
    forall q | q in slots && Rewritten(fx, op, chat, claimed, q)
      ensures Written(fx, op, chat, q) in out.reps && KeyOf(fx, q) in out.session.blocks
    {
      assert q in init || q == s;
    }
    forall r | r in out.reps && r !in acc.reps
      ensures exists q :: q in slots && Rewritten(fx, op, chat, claimed, q) && r == Written(fx, op, chat, q)
    {
      if r in mid.reps {
        var q :| q in init && Rewritten(fx, op, chat, claimed, q) && r == Written(fx, op, chat, q);
        assert q in slots;
      } else {
        assert r == Written(fx, op, chat, s);
      }
    }
    forall k | k in out.session.blocks && (k !in acc.session.blocks || out.session.blocks[k] != acc.session.blocks[k])
      ensures RecordedFor(fx, op, turn, chat, claimed, out.session.blocks[k], k, slots)
    {
      if k in mid.session.blocks && out.session.blocks[k] == mid.session.blocks[k] {
        var q :| q in init && Rewritten(fx, op, chat, claimed, q) && KeyOf(fx, q) == k
              && mid.session.blocks[k] == Entry(FreshValue(fx, op, chat, q), turn);
        assert q in slots;
      }
    }
  }

  // ---- the replay pass ----

  lemma {:induction false} ReplaySlotAnswers(fx: Fixed, op: Options, originals: set<Original>, turn: nat, i: nat,
                                             acc: Acc, s: PlanSlot)
    requires HoldsDigests(fx, op, originals) && (Replayable(s) ==> OriginalOf(s) in originals)
    requires Undeclined(acc) && OwnNames(fx, originals, acc.session.blocks)
    ensures var out := ReplaySlot(fx, op, turn, i, acc, s);
            Undeclined(out) && OwnNames(fx, originals, out.session.blocks)
  {
    if Replayable(s) && KeyOf(fx, s) in acc.session.blocks && s.kind != ImageData {
      assert OriginalOf(s) in originals;
      RefreshResolves(fx, op, acc.store, s.text, acc.session.blocks[KeyOf(fx, s)].text);
    }
  }

  lemma {:induction false} ReplaySlotsAnswer(fx: Fixed, op: Options, originals: set<Original>, turn: nat, i: nat,
                                             acc: Acc, slots: seq<PlanSlot>)
    requires HoldsDigests(fx, op, originals) && forall s :: s in slots && Replayable(s) ==> OriginalOf(s) in originals
    requires Undeclined(acc) && OwnNames(fx, originals, acc.session.blocks)
    ensures var out := ReplaySlots(fx, op, turn, i, acc, slots);
            Undeclined(out) && OwnNames(fx, originals, out.session.blocks)
  {
    if slots != [] {
      var init := slots[..|slots| - 1];
      ReplaySlotsAnswer(fx, op, originals, turn, i, acc, init);
      ReplaySlotAnswers(fx, op, originals, turn, i, ReplaySlots(fx, op, turn, i, acc, init), slots[|slots| - 1]);
    }
  }

  lemma {:induction false} ReplayMessagesAnswer(fx: Fixed, op: Options, originals: set<Original>, turn: nat,
                                                chat: Chat, acc: Acc, n: nat)
    requires HoldsDigests(fx, op, originals) && OriginalsOf(chat, originals) && n <= |chat.messages|
    requires Undeclined(acc) && OwnNames(fx, originals, acc.session.blocks)
    ensures var out := ReplayMessages(fx, op, turn, chat, acc, n);
            Undeclined(out) && OwnNames(fx, originals, out.session.blocks)
  {
    if n > 0 {
      ReplayMessagesAnswer(fx, op, originals, turn, chat, acc, n - 1);
      ReplaySlotsAnswer(fx, op, originals, turn, n - 1, ReplayMessages(fx, op, turn, chat, acc, n - 1),
                        PlanAt(chat, n - 1));
    }
  }

  lemma {:induction false} OpeningKeepsNames(fx: Fixed, originals: set<Original>, session: Session, t: TurnInput)
    requires OwnNames(fx, originals, session.blocks)
    ensures OwnNames(fx, originals, Opening(session, t).blocks)
  {
  }

  /** No replay is declined, whatever the store lost between the turns. */
  lemma {:induction false} TurnIsCalm(fx: Fixed, originals: set<Original>, session: Session, t: TurnInput)
    requires Digests(fx, originals) && Inputs(fx, originals, t) && OwnNames(fx, originals, session.blocks)
    ensures Calm(fx, session, t) && OwnNames(fx, originals, ReplayHalf(fx, session, t).session.blocks)
  {
    var o := Opening(session, t);
    OpeningKeepsNames(fx, originals, session, t);
    ReplayMessagesAnswer(fx, t.op, originals, o.turn, t.chat, Start(o, t.store), |t.chat.messages|);
    forall x ensures fx.computeKey(x) != "" {
      assert IsHash(fx.computeKey(x));
    }
  }

  // ---- one turn, from its inputs ----

  /** This turn rewrites slot s of message i for the first time: it lies in the live
      message, the opened session does not know its key, and the fresh pass takes it. */
  ghost predicate Rewrites(fx: Fixed, session: Session, t: TurnInput, i: nat, s: PlanSlot) {
    && Live(session, t) == Some(i) && Replayable(s)
    && KeyOf(fx, s) !in Opening(session, t).blocks && Taken(fx, t.op, t.chat, s)
  }

  ghost predicate IsPlanned(chat: Chat, i: nat, s: PlanSlot) {
    i < |chat.messages| && s in PlanAt(chat, i) && Replayable(s)
  }

  /** Replay claimed exactly the slots whose key the opened session knows. */
  lemma {:induction false} ClaimedIsKnown(fx: Fixed, session: Session, t: TurnInput, i: nat, s: PlanSlot)
    requires Calm(fx, session, t) && IsPlanned(t.chat, i, s)
    ensures s.start in Starts(ReplayHalf(fx, session, t).reps) <==> KeyOf(fx, s) in Opening(session, t).blocks
  {
    var o := Opening(session, t);
    var half := ReplayHalf(fx, session, t);
    ReplayMessagesEffect(fx, t.op, o.turn, t.chat, Start(o, t.store), |t.chat.messages|);
    if Hit(fx, o.blocks, s) {
      assert Rep(fx, o.blocks, s) in half.reps;
    } else if s.start in Starts(half.reps) {
      var r :| r in half.reps && r.start == s.start;
      var i', s' :| 0 <= i' < |t.chat.messages| && s' in PlanAt(t.chat, i') && Hit(fx, o.blocks, s')
                    && r == Rep(fx, o.blocks, s');
      SameStartSameSlot(t.chat, i, s, i', s');
      assert false;
    }
  }

  lemma {:induction false} FreshHalf(fx: Fixed, originals: set<Original>, session: Session, t: TurnInput, i: nat)
    returns (acc: Acc)
    requires Digests(fx, originals) && Inputs(fx, originals, t) && Calm(fx, session, t) && Live(session, t) == Some(i)
    ensures acc == TurnAcc(fx, session, t)
    ensures var half := ReplayHalf(fx, session, t);
            FreshExactly(fx, t.op, session.turn + 1, t.chat, Starts(half.reps), half, acc, PlanAt(t.chat, i))
  {
    var half := ReplayHalf(fx, session, t);
    acc := FreshSlots(fx, t.op, true, session.turn + 1, t.chat, i, Starts(half.reps), half, PlanAt(t.chat, i));
    FreshSlotsExact(fx, t.op, originals, session.turn + 1, t.chat, i, Starts(half.reps), half, PlanAt(t.chat, i));
  }

  /** A slot the turn rewrites goes out as its value, and its key is recorded. */
  lemma {:induction false} RewrittenSlot(fx: Fixed, originals: set<Original>, session: Session, t: TurnInput, i: nat,
                                         s: PlanSlot)
    requires Digests(fx, originals) && Inputs(fx, originals, t) && Calm(fx, session, t)
    requires IsPlanned(t.chat, i, s) && Rewrites(fx, session, t, i, s)
    ensures RepAt(TurnAcc(fx, session, t).reps, s.start) == Some(fx.encode(FreshValue(fx, t.op, t.chat, s)))
    ensures KeyOf(fx, s) in TurnAcc(fx, session, t).session.blocks
  {
    var half := ReplayHalf(fx, session, t);
    ClaimedIsKnown(fx, session, t, i, s);
    var acc := FreshHalf(fx, originals, session, t, i);
    assert Rewritten(fx, t.op, t.chat, Starts(half.reps), s);
    TurnReps(fx, session, t);
    RepAtIs(TurnAcc(fx, session, t).reps, Written(fx, t.op, t.chat, s));
  }

  /** A slot with an unknown key that the turn does not rewrite goes out as it came. */
  lemma {:induction false} UntouchedSlot(fx: Fixed, originals: set<Original>, session: Session, t: TurnInput, i: nat,
                                         s: PlanSlot)
    requires Digests(fx, originals) && Inputs(fx, originals, t) && Calm(fx, session, t)
    requires IsPlanned(t.chat, i, s) && KeyOf(fx, s) !in Opening(session, t).blocks && !Rewrites(fx, session, t, i, s)
    ensures RepAt(TurnAcc(fx, session, t).reps, s.start).None?
  {
    var half, acc := ReplayHalf(fx, session, t), TurnAcc(fx, session, t);
    if RepAt(acc.reps, s.start).Some? {
      RepAtMember(acc.reps, s.start);
      var r :| r in acc.reps && r.start == s.start && r.repl == RepAt(acc.reps, s.start).value;
      ClaimedIsKnown(fx, session, t, i, s);
      assert r !in half.reps;
      UnknownSlot(fx, session, t, i, s);
      var same := FreshHalf(fx, originals, session, t, i);
      var q :| q in PlanAt(t.chat, i) && Rewritten(fx, t.op, t.chat, Starts(half.reps), q)
               && r == Written(fx, t.op, t.chat, q);
      SameStartSameSlot(t.chat, i, s, i, q);
      assert false;
    }
  }

  /** Whatever the turn learnt is the value of a slot it rewrote. */
  lemma {:induction false} LearntFrom(fx: Fixed, originals: set<Original>, session: Session, t: TurnInput, k: Key)
    returns (i: nat, s: PlanSlot)
    requires Digests(fx, originals) && Inputs(fx, originals, t) && Calm(fx, session, t)
    requires k in TurnAcc(fx, session, t).session.blocks && k !in Opening(session, t).blocks
    ensures IsPlanned(t.chat, i, s) && Rewrites(fx, session, t, i, s) && KeyOf(fx, s) == k
    ensures TurnAcc(fx, session, t).session.blocks[k].text == FreshValue(fx, t.op, t.chat, s)
  {
    var half, acc := ReplayHalf(fx, session, t), TurnAcc(fx, session, t);
    var o := Opening(session, t);
    ReplayMessagesEffect(fx, t.op, o.turn, t.chat, Start(o, t.store), |t.chat.messages|);
    assert Live(session, t).Some?;
    i := Live(session, t).value;
    var same := FreshHalf(fx, originals, session, t, i);
    assert RecordedFor(fx, t.op, session.turn + 1, t.chat, Starts(half.reps), acc.session.blocks[k], k,
                       PlanAt(t.chat, i));
    s :| s in PlanAt(t.chat, i) && Rewritten(fx, t.op, t.chat, Starts(half.reps), s) && KeyOf(fx, s) == k
         && acc.session.blocks[k] == Entry(FreshValue(fx, t.op, t.chat, s), session.turn + 1);
  }

  /** Entries after the turn still name only their own texts' digests. */
  lemma {:induction false} TurnKeepsNames(fx: Fixed, originals: set<Original>, session: Session, t: TurnInput)
    requires Digests(fx, originals) && Inputs(fx, originals, t) && OwnNames(fx, originals, session.blocks)
    ensures OwnNames(fx, originals, TurnAcc(fx, session, t).session.blocks)
  {
    TurnIsCalm(fx, originals, session, t);
    OpeningKeepsNames(fx, originals, session, t);
    var o, acc := Opening(session, t), TurnAcc(fx, session, t);
    forall x, h | x in originals && !x.image && fx.computeKey(x.text) in acc.session.blocks
        && h in Hashes(acc.session.blocks[fx.computeKey(x.text)].text)
      ensures OwnDigest(fx, x.text, h)
    {
      var k := fx.computeKey(x.text);
      if k in o.blocks {
        FreshSparesOldKeys(fx, session, t, k);
      } else {
        var i, s := LearntFrom(fx, originals, session, t, k);
        assert OriginalOf(s) in originals && fx.computeKey(Payload(OriginalOf(s))) == fx.computeKey(Payload(x));
        assert OriginalOf(s) == x;
        ReplacementNames(fx, t.op, originals, t.op.context(t.chat, s.toolUseID), x, h);
      }
    }
  }

  // ---- the condition ----

  /** Every copy of a text this turn rewrites is rewritten with it, to the same bytes:
      no copy waits in an earlier message, fails the gate or gets another value. */
  ghost predicate CopiesAgree(fx: Fixed, session: Session, t: TurnInput) {
    forall i, s, l, r | IsPlanned(t.chat, i, s) && IsPlanned(t.chat, l, r)
                        && KeyOf(fx, s) == KeyOf(fx, r) && Rewrites(fx, session, t, l, r) ::
      SameFate(fx, session, t, i, s, r)
  }

  ghost predicate SameFate(fx: Fixed, session: Session, t: TurnInput, i: nat, s: PlanSlot, r: PlanSlot) {
    Rewrites(fx, session, t, i, s)
      && fx.encode(FreshValue(fx, t.op, t.chat, s)) == fx.encode(FreshValue(fx, t.op, t.chat, r))
  }

  lemma {:induction false} PlanHasPart(whole: bool, parts: seq<Part>, offset: nat, s: PlanSlot) returns (j: nat)
    requires s in Plan(whole, parts, offset)
    ensures j < |parts| && parts[j].Slot? && s == PlanOne(whole, parts[j].block, offset + |RenderParts(parts[..j])|)
  {
    if parts[0].Slot? && s == PlanOne(whole, parts[0].block, offset) {
      j := 0;
      assert parts[..0] == [];
    } else {
      var rest := PlanHasPart(whole, parts[1..], offset + |PartBytes(parts[0])|, s);
      j := rest + 1;
      RenderPrefix(parts, j);
      assert parts[1..][rest] == parts[j];
    }
  }

  /** Every replayable slot is the planned slot of an eligible part. */
  lemma {:induction false} PlannedPart(chat: Chat, i: nat, s: PlanSlot) returns (j: nat)
    requires WellFormed(chat) && IsPlanned(chat, i, s)
    ensures j < |chat.messages[i].parts| && Eligible(chat.messages[i].whole, chat.messages[i].parts[j])
    ensures s == SlotOf(chat, i, j)
  {
    var m := chat.messages[i];
    j := PlanHasPart(m.whole, m.parts, MessageStart(chat, i), s);
  }

  /** What the fresh pass writes differs from what it replaces. */
  lemma {:induction false} ValueIsNew(fx: Fixed, op: Options, chat: Chat, s: PlanSlot)
    requires Replayable(s) && Taken(fx, op, chat, s)
    ensures FreshValue(fx, op, chat, s) != s.text
  {
  }

  lemma {:induction false} SentIs(fx: Fixed, session: Session, t: TurnInput, i: nat, j: nat)
    requires Calm(fx, session, t) && i < |t.chat.messages| && j < |t.chat.messages[i].parts|
    requires Eligible(t.chat.messages[i].whole, t.chat.messages[i].parts[j])
    ensures var at := RepAt(TurnAcc(fx, session, t).reps, SlotOf(t.chat, i, j).start);
            Sent(fx, session, t, i, j) == if at.Some? then at.value else PartBytes(t.chat.messages[i].parts[j])
  {
    SlotOfEligible(fx, t.chat, i, j);
  }

  lemma {:induction false} LearntSent(fx: Fixed, originals: set<Original>, session: Session, t: TurnInput, i: nat,
                                      j: nat)
    requires Digests(fx, originals) && Inputs(fx, originals, t) && Calm(fx, session, t) && CopiesAgree(fx, session, t)
    requires i < |t.chat.messages| && j < |t.chat.messages[i].parts| && Learnt(fx, session, t, i, j)
    ensures var m := t.chat.messages[i];
            Sent(fx, session, t, i, j)
              == fx.encode(TurnAcc(fx, session, t).session.blocks[PartKey(fx, m.whole, m.parts[j])].text)
  {
    var m := t.chat.messages[i];
    SlotOfEligible(fx, t.chat, i, j);
    var s := SlotOf(t.chat, i, j);
    var l, r := LearntFrom(fx, originals, session, t, PartKey(fx, m.whole, m.parts[j]));
    assert SameFate(fx, session, t, i, s, r);
    RewrittenSlot(fx, originals, session, t, i, s);
    SentIs(fx, session, t, i, j);
  }

  lemma {:induction false} CopyAgrees(fx: Fixed, originals: set<Original>, session: Session, t: TurnInput, i: nat,
                                      s: PlanSlot, l: nat, r: PlanSlot)
    requires Digests(fx, originals) && Inputs(fx, originals, t) && Calm(fx, session, t) && Steady(fx, session, t)
    requires IsPlanned(t.chat, i, s) && IsPlanned(t.chat, l, r) && KeyOf(fx, s) == KeyOf(fx, r)
    requires Rewrites(fx, session, t, l, r)
    ensures SameFate(fx, session, t, i, s, r)
  {
    var j := PlannedPart(t.chat, i, s);
    var q := PlannedPart(t.chat, l, r);
    RewrittenSlot(fx, originals, session, t, l, r);
    SlotOfEligible(fx, t.chat, i, j);
    SlotOfEligible(fx, t.chat, l, q);
    assert Learnt(fx, session, t, i, j) && Learnt(fx, session, t, l, q);
    SentIs(fx, session, t, i, j);
    SentIs(fx, session, t, l, q);
    if Rewrites(fx, session, t, i, s) {
      RewrittenSlot(fx, originals, session, t, i, s);
    } else {
      UntouchedSlot(fx, originals, session, t, i, s);
      assert PartBytes(t.chat.messages[i].parts[j]) == fx.encode(FreshValue(fx, t.op, t.chat, r));
      assert LegiblePart(fx, t.chat.messages[i].whole, t.chat.messages[i].parts[j]);
      SameOriginal(fx, originals, t.chat, i, s, l, r);
      ValueIsNew(fx, t.op, t.chat, r);
      assert false;
    }
  }

  lemma {:induction false} SameOriginal(fx: Fixed, originals: set<Original>, chat: Chat, i: nat, s: PlanSlot, l: nat,
                                        r: PlanSlot)
    requires Digests(fx, originals) && OriginalsOf(chat, originals)
    requires IsPlanned(chat, i, s) && IsPlanned(chat, l, r) && KeyOf(fx, s) == KeyOf(fx, r)
    ensures OriginalOf(s) == OriginalOf(r)
  {
    assert OriginalOf(s) in originals && OriginalOf(r) in originals;
    assert KeyOf(fx, s) == fx.computeKey(Payload(OriginalOf(s)))
        && KeyOf(fx, r) == fx.computeKey(Payload(OriginalOf(r)));
  }

  /** Everything a turn learns is sent as it is recorded exactly when copies agree. */
  lemma {:induction false} SteadyIff(fx: Fixed, originals: set<Original>, session: Session, t: TurnInput)
    requires Digests(fx, originals) && Inputs(fx, originals, t) && OwnNames(fx, originals, session.blocks)
    ensures Steady(fx, session, t) <==> CopiesAgree(fx, session, t)
  {
    TurnIsCalm(fx, originals, session, t);
    if CopiesAgree(fx, session, t) {
      forall i, j | 0 <= i < |t.chat.messages| && 0 <= j < |t.chat.messages[i].parts| && Learnt(fx, session, t, i, j)
        ensures var m := t.chat.messages[i];
                Sent(fx, session, t, i, j)
                  == fx.encode(TurnAcc(fx, session, t).session.blocks[PartKey(fx, m.whole, m.parts[j])].text)
      {
        LearntSent(fx, originals, session, t, i, j);
      }
    }
    if Steady(fx, session, t) {
      forall i, s, l, r | IsPlanned(t.chat, i, s) && IsPlanned(t.chat, l, r)
        && KeyOf(fx, s) == KeyOf(fx, r) && Rewrites(fx, session, t, l, r)
        ensures SameFate(fx, session, t, i, s, r)
      {
        CopyAgrees(fx, originals, session, t, i, s, l, r);
      }
    }
  }

  /** Prefix stability, exactly: the messages of this turn go out again unchanged on the
      next one if and only if every copy of a text rewritten now is rewritten with it. */
  lemma {:induction false} PrefixStableIff(fx: Fixed, originals: set<Original>, session: Session, t: TurnInput,
                                           u: TurnInput)
    requires Digests(fx, originals) && OwnNames(fx, originals, session.blocks)
    requires Inputs(fx, originals, t) && Inputs(fx, originals, u) && Appends(t, u)
    ensures OutAll(fx, session, t) <= OutAll(fx, TurnAcc(fx, session, t).session, u) <==> CopiesAgree(fx, session, t)
  {
    TurnIsCalm(fx, originals, session, t);
    TurnKeepsNames(fx, originals, session, t);
    TurnIsCalm(fx, originals, TurnAcc(fx, session, t).session, u);
    StableIffSteady(fx, session, t, u);
    SteadyIff(fx, originals, session, t);
  }

  /** A copy that waits in an earlier message is the way it fails: sent as it came now,
      and as the rewritten text one turn later. */
  lemma {:induction false} EarlierCopyIsRewritten(fx: Fixed, originals: set<Original>, session: Session, t: TurnInput,
                                                  u: TurnInput, i: nat, j: nat, l: nat, r: PlanSlot)
    requires Digests(fx, originals) && OwnNames(fx, originals, session.blocks)
    requires Inputs(fx, originals, t) && Inputs(fx, originals, u) && Appends(t, u)
    requires IsPlanned(t.chat, l, r) && Rewrites(fx, session, t, l, r)
    requires i != l && i < |t.chat.messages| && j < |t.chat.messages[i].parts|
    requires Eligible(t.chat.messages[i].whole, t.chat.messages[i].parts[j])
    requires PartKey(fx, t.chat.messages[i].whole, t.chat.messages[i].parts[j]) == KeyOf(fx, r)
    ensures var mid := TurnAcc(fx, session, t).session;
            && Sent(fx, session, t, i, j) == PartBytes(t.chat.messages[i].parts[j])
            && KeyOf(fx, r) in mid.blocks && Sent(fx, mid, u, i, j) == fx.encode(mid.blocks[KeyOf(fx, r)].text)
            && Sent(fx, session, t, i, j) != Sent(fx, mid, u, i, j)
  {
    TurnIsCalm(fx, originals, session, t);
    TurnKeepsNames(fx, originals, session, t);
    var mid := TurnAcc(fx, session, t).session;
    TurnIsCalm(fx, originals, mid, u);
    RewrittenSlot(fx, originals, session, t, l, r);
    SlotOfEligible(fx, t.chat, i, j);
    assert Learnt(fx, session, t, i, j);
    LearntIsRewritten(fx, session, t, u, i, j);
    var l', r' := LearntFrom(fx, originals, session, t, KeyOf(fx, r));
    assert LegiblePart(fx, t.chat.messages[i].whole, t.chat.messages[i].parts[j]);
    SameOriginal(fx, originals, t.chat, i, SlotOf(t.chat, i, j), l', r');
    ValueIsNew(fx, t.op, t.chat, r');
  }

  // ---- whole runs ----

  /** What a run assumes: the digests, the entries it starts with, the inputs of each
      turn, and a client that only appends. */
  ghost predicate SoundRun(fx: Fixed, originals: set<Original>, session: Session, turns: seq<TurnInput>) {
    if turns == [] then Digests(fx, originals) && OwnNames(fx, originals, session.blocks)
    else
      var init, t := turns[..|turns| - 1], turns[|turns| - 1];
      && SoundRun(fx, originals, session, init) && Inputs(fx, originals, t)
      && (init != [] ==> Appends(init[|init| - 1], t))
  }

  lemma {:induction false} SoundStart(fx: Fixed, originals: set<Original>, session: Session, turns: seq<TurnInput>)
    requires SoundRun(fx, originals, session, turns)
    ensures Digests(fx, originals) && OwnNames(fx, originals, session.blocks)
  {
    if turns != [] {
      SoundStart(fx, originals, session, turns[..|turns| - 1]);
    }
  }

  lemma {:induction false} SoundTurn(fx: Fixed, originals: set<Original>, session: Session, turns: seq<TurnInput>,
                                     n: nat)
    requires SoundRun(fx, originals, session, turns) && n < |turns|
    ensures Inputs(fx, originals, turns[n]) && (n > 0 ==> Appends(turns[n - 1], turns[n]))
  {
    if n < |turns| - 1 {
      SoundTurn(fx, originals, session, turns[..|turns| - 1], n);
    }
  }

  lemma {:induction false} RunKeepsNames(fx: Fixed, originals: set<Original>, session: Session, turns: seq<TurnInput>,
                                         n: nat)
    requires SoundRun(fx, originals, session, turns) && n <= |turns|
    ensures OwnNames(fx, originals, Before(fx, session, turns, n).blocks)
  {
    SoundStart(fx, originals, session, turns);
    if n > 0 {
      RunKeepsNames(fx, originals, session, turns, n - 1);
      BeforeNext(fx, session, turns, n - 1);
      SoundTurn(fx, originals, session, turns, n - 1);
      TurnKeepsNames(fx, originals, Before(fx, session, turns, n - 1), turns[n - 1]);
    }
  }

  lemma {:induction false} RunStepIff(fx: Fixed, originals: set<Original>, session: Session, turns: seq<TurnInput>,
                                      n: nat)
    requires SoundRun(fx, originals, session, turns) && n + 1 < |turns|
    ensures OutAt(fx, session, turns, n) <= OutAt(fx, session, turns, n + 1)
       <==> CopiesAgree(fx, Before(fx, session, turns, n), turns[n])
  {
    SoundStart(fx, originals, session, turns);
    RunKeepsNames(fx, originals, session, turns, n);
    BeforeNext(fx, session, turns, n);
    SoundTurn(fx, originals, session, turns, n);
    SoundTurn(fx, originals, session, turns, n + 1);
    PrefixStableIff(fx, originals, Before(fx, session, turns, n), turns[n], turns[n + 1]);
  }

  /** Copies agree on the first n turns. */
  ghost predicate CopiesAgreeFor(fx: Fixed, session: Session, turns: seq<TurnInput>, n: nat)
    requires n <= |turns|
  {
    n > 0 ==>
      CopiesAgreeFor(fx, session, turns, n - 1) && CopiesAgree(fx, Before(fx, session, turns, n - 1), turns[n - 1])
  }

  /** What every turn but the last has to meet. */
  ghost predicate CopiesAgreeThroughout(fx: Fixed, session: Session, turns: seq<TurnInput>) {
    turns != [] ==> CopiesAgreeFor(fx, session, turns, |turns| - 1)
  }

  lemma {:induction false} CopiesAgreeAt(fx: Fixed, session: Session, turns: seq<TurnInput>, n: nat, m: nat)
    requires n < m <= |turns| && CopiesAgreeFor(fx, session, turns, m)
    ensures CopiesAgree(fx, Before(fx, session, turns, n), turns[n])
  {
    if n < m - 1 {
      CopiesAgreeAt(fx, session, turns, n, m - 1);
    }
  }

  /** Otherwise there is a turn on which they do not. */
  lemma {:induction false} Disagreement(fx: Fixed, session: Session, turns: seq<TurnInput>, m: nat) returns (n: nat)
    requires m <= |turns| && !CopiesAgreeFor(fx, session, turns, m)
    ensures n < m && !CopiesAgree(fx, Before(fx, session, turns, n), turns[n])
  {
    n := m - 1;
    if CopiesAgree(fx, Before(fx, session, turns, n), turns[n]) {
      n := Disagreement(fx, session, turns, m - 1);
    }
  }

  /** Over a whole run, whatever turn n sent for its messages every later turn sends again,
      for every n, if and only if copies agree on every turn but the last. */
  lemma {:induction false} RunPrefixStableIff(fx: Fixed, originals: set<Original>, session: Session,
                                              turns: seq<TurnInput>)
    requires SoundRun(fx, originals, session, turns)
    ensures (forall n: nat, m: nat :: n <= m < |turns| ==> OutAt(fx, session, turns, n) <= OutAt(fx, session, turns, m))
       <==> CopiesAgreeThroughout(fx, session, turns)
  {
    if CopiesAgreeThroughout(fx, session, turns) {
      RunIsGrowing(fx, originals, session, turns);
      forall n: nat, m: nat | n <= m < |turns| ensures OutAt(fx, session, turns, n) <= OutAt(fx, session, turns, m) {
        GrowingFar(fx, session, turns, n, m);
      }
    } else {
      var n := Disagreement(fx, session, turns, |turns| - 1);
      RunStepIff(fx, originals, session, turns, n);
      assert !(OutAt(fx, session, turns, n) <= OutAt(fx, session, turns, n + 1));
    }
  }

  lemma {:induction false} RunIsGrowing(fx: Fixed, originals: set<Original>, session: Session, turns: seq<TurnInput>)
    requires SoundRun(fx, originals, session, turns) && CopiesAgreeThroughout(fx, session, turns)
    ensures Growing(fx, session, turns)
  {
    forall i | 0 <= i && i + 1 < |turns| ensures OutAt(fx, session, turns, i) <= OutAt(fx, session, turns, i + 1) {
      CopiesAgreeAt(fx, session, turns, i, |turns| - 1);
      RunStepIff(fx, originals, session, turns, i);
    }
  }

  lemma {:induction false} RunIsCalm(fx: Fixed, originals: set<Original>, session: Session, turns: seq<TurnInput>,
                                     n: nat)
    requires SoundRun(fx, originals, session, turns) && n < |turns|
    ensures Calm(fx, Before(fx, session, turns, n), turns[n])
  {
    SoundStart(fx, originals, session, turns);
    SoundTurn(fx, originals, session, turns, n);
    RunKeepsNames(fx, originals, session, turns, n);
    TurnIsCalm(fx, originals, Before(fx, session, turns, n), turns[n]);
  }

  /** The cached prefix: with an unchanged head, everything turn n forwarded up to the
      end of its messages opens every later body of the run. */
  lemma {:induction false} RunBodiesSharePrefix(fx: Fixed, originals: set<Original>, session: Session,
                                                turns: seq<TurnInput>,
                                                n: nat, m: nat)
    requires SoundRun(fx, originals, session, turns) && CopiesAgreeThroughout(fx, session, turns)
    requires n <= m < |turns| && turns[n].chat.head == turns[m].chat.head
    ensures var bn, bm := BodyAt(fx, session, turns, n), BodyAt(fx, session, turns, m);
            |turns[n].chat.tail| <= |bn| && bn[..|bn| - |turns[n].chat.tail|] <= bm
  {
    RunIsGrowing(fx, originals, session, turns);
    GrowingFar(fx, session, turns, n, m);
    RunIsCalm(fx, originals, session, turns, n);
    RunIsCalm(fx, originals, session, turns, m);
    BodiesSharePrefix(fx, session, turns, n, m);
  }

  /** A conversation that holds every text once. */
  ghost predicate NoCopies(chat: Chat) {
    forall i, s, l, r :: IsPlanned(chat, i, s) && IsPlanned(chat, l, r) && OriginalOf(s) == OriginalOf(r) ==>
      i == l && s == r
  }

  lemma {:induction false} NoCopiesAgree(fx: Fixed, originals: set<Original>, session: Session, t: TurnInput)
    requires Digests(fx, originals) && OriginalsOf(t.chat, originals) && NoCopies(t.chat)
    ensures CopiesAgree(fx, session, t)
  {
    forall i, s, l, r | IsPlanned(t.chat, i, s) && IsPlanned(t.chat, l, r)
      && KeyOf(fx, s) == KeyOf(fx, r) && Rewrites(fx, session, t, l, r)
      ensures SameFate(fx, session, t, i, s, r)
    {
      SameOriginal(fx, originals, t.chat, i, s, l, r);
    }
  }

  lemma {:induction false} NoCopiesFor(fx: Fixed, originals: set<Original>, session: Session, turns: seq<TurnInput>,
                                       n: nat)
    requires SoundRun(fx, originals, session, turns) && n <= |turns|
    requires forall i :: 0 <= i < |turns| ==> NoCopies(turns[i].chat)
    ensures CopiesAgreeFor(fx, session, turns, n)
  {
    if n > 0 {
      NoCopiesFor(fx, originals, session, turns, n - 1);
      SoundStart(fx, originals, session, turns);
      SoundTurn(fx, originals, session, turns, n - 1);
      NoCopiesAgree(fx, originals, Before(fx, session, turns, n - 1), turns[n - 1]);
    }
  }

  /** Without copies every run is stable, whatever the session, the router and the
      store do within what is assumed of them. */
  lemma {:induction false} NoCopiesStable(fx: Fixed, originals: set<Original>, session: Session,
                                          turns: seq<TurnInput>, n: nat, m: nat)
    requires SoundRun(fx, originals, session, turns)
    requires forall i :: 0 <= i < |turns| ==> NoCopies(turns[i].chat)
    requires n <= m < |turns|
    ensures OutAt(fx, session, turns, n) <= OutAt(fx, session, turns, m)
  {
    NoCopiesFor(fx, originals, session, turns, |turns| - 1);
    RunPrefixStableIff(fx, originals, session, turns);
  }
}
