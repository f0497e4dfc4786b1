/** What a dispatch reports of itself, and when a block is accepted:
    livezone.go and compress.go of internal/livezone. */
module DispatchReport {

  import opened Common
  import opened Splice
  import opened Replay
  import opened LiveZone
  import opened Marker

  // ---- the gate ----

  /** r is the compressed text with the marker for its original on a line of its own. */
  predicate MarkedAs(r: string, compressed: string, hash: Key) {
    if compressed != "" && compressed[|compressed| - 1] == '\n' then r == compressed + ("<<ccr:" + hash + ">>")
    else r == compressed + "\n" + ("<<ccr:" + hash + ">>")
  }

  /** A block is accepted exactly when there are a router and a store, the router changed
      the text into something, and the changed text with its marker counts fewer tokens
      than the original. */
  lemma {:induction false} AcceptedIff(fx: Fixed, op: Options, ctx: string, text: string)
    ensures var br := BlockOf(fx, op, ctx, text);
            && (br.accepted <==>
                  && op.route.Some? && op.hasStore && op.route.value(text, ctx).output !in {"", text}
                  && exists r :: MarkedAs(r, op.route.value(text, ctx).output, fx.computeKey(text))
                       && fx.countText(r) < fx.countText(text))
            && (br.accepted ==>
                  && MarkedAs(br.replacement, op.route.value(text, ctx).output, fx.computeKey(text))
                  && br.cacheKey == fx.computeKey(text)
                  && br.tokensBefore == fx.countText(text) && br.tokensAfter == fx.countText(br.replacement))
            && (br.action == RejectedTokens <==>
                  && op.route.Some? && op.hasStore && op.route.value(text, ctx).output !in {"", text}
                  && !br.accepted)
  {
    if op.route.Some? && op.hasStore {
      var out := op.route.value(text, ctx).output;
      assert MarkedAs(InjectCCRMarker(fx, text, out, true).0, out, fx.computeKey(text));
    }
  }

  // ---- what is staged ----

  /** A staged hash holds what was written under it last. */
  lemma {:induction false} StagedIsLast(writes: seq<(Key, string)>, i: nat)
    requires i < |writes| && forall j :: i < j < |writes| ==> writes[j].0 != writes[i].0
    ensures writes[i].0 in StageAll(writes).payloads && StageAll(writes).payloads[writes[i].0] == writes[i].1
  {
    if i < |writes| - 1 {
      var init := writes[..|writes| - 1];
      assert forall j :: 0 <= j < |init| ==> init[j] == writes[j];
      StagedIsLast(init, i);
    }
  }

  /** The staged hashes are those written, each once, in the order of their first writes. */
  lemma {:induction false} StagedInOrder(writes: seq<(Key, string)>)
    ensures StageAll(writes).hashes == FirstOccurrences(HashesOf(writes))
    ensures forall h :: h in StageAll(writes).payloads <==> h in HashesOf(writes)
  {
    if writes != [] {
      var init := writes[..|writes| - 1];
      StagedInOrder(init);
      FirstOccurrencesContract(HashesOf(init));
      assert HashesOf(writes)[..|init|] == HashesOf(init);
      assert HashesOf(writes) == HashesOf(init) + [writes[|init|].0];
    }
  }

  function HashesOf(writes: seq<(Key, string)>): (r: seq<Key>)
    ensures |r| == |writes|
  {
    seq(|writes|, i requires 0 <= i < |writes| => writes[i].0)
  }

  // ---- the totals are those of the blocks ----

  /** The block was rewritten. */
  predicate Rewrote(o: Outcome) { o.action == Compressed || o.action == Replayed || o.action == ImageResized }

  function BeforeIn(os: seq<Outcome>): nat {
    if os == [] then 0
    else BeforeIn(os[..|os| - 1]) + (if Rewrote(os[|os| - 1]) then os[|os| - 1].tokensBefore else 0)
  }

  function AfterIn(os: seq<Outcome>): nat {
    if os == [] then 0
    else AfterIn(os[..|os| - 1]) + (if Rewrote(os[|os| - 1]) then os[|os| - 1].tokensAfter else 0)
  }

  function RewrittenIn(os: seq<Outcome>): nat {
    if os == [] then 0 else RewrittenIn(os[..|os| - 1]) + (if Rewrote(os[|os| - 1]) then 1 else 0)
  }

  ghost predicate SomeRejected(os: seq<Outcome>) { exists o :: o in os && o.action == RejectedTokens }

  /** Totals, replacements and the rejection flag agree with the outcomes. */
  ghost predicate Tallied(acc: Acc) {
    && acc.before == BeforeIn(acc.outcomes) && acc.after == AfterIn(acc.outcomes)
    && |acc.reps| == RewrittenIn(acc.outcomes) && (acc.rejected <==> SomeRejected(acc.outcomes))
  }

  /** One outcome more, counted as it should be. */
  ghost predicate Tallies(acc: Acc, next: Acc, o: Outcome) {
    && next.outcomes == acc.outcomes + [o]
    && next.before == acc.before + (if Rewrote(o) then o.tokensBefore else 0)
    && next.after == acc.after + (if Rewrote(o) then o.tokensAfter else 0)
    && |next.reps| == |acc.reps| + (if Rewrote(o) then 1 else 0)
    && (next.rejected <==> acc.rejected || o.action == RejectedTokens)
  }

  lemma {:induction false} OneMoreOutcome(acc: Acc, next: Acc, o: Outcome)
    requires Tallied(acc) && Tallies(acc, next, o)
    ensures Tallied(next)
  {
    assert (acc.outcomes + [o])[..|acc.outcomes|] == acc.outcomes;
    assert forall q :: q in acc.outcomes + [o] <==> q in acc.outcomes || q == o;
  }

  lemma {:induction false} ReplayTallies(fx: Fixed, op: Options, turn: nat, i: nat, acc: Acc, s: PlanSlot)
    requires Tallied(acc)
    ensures Tallied(ReplaySlot(fx, op, turn, i, acc, s))
  {
    var next := ReplaySlot(fx, op, turn, i, acc, s);
    if next.outcomes != acc.outcomes {
      OneMoreOutcome(acc, next, next.outcomes[|acc.outcomes|]);
    }
  }

  lemma {:induction false} TextTallies(fx: Fixed, op: Options, replaying: bool, turn: nat, chat: Chat, i: nat, acc: Acc,
                                       s: PlanSlot)
    ensures TalliesOne(acc, FreshText(fx, op, replaying, turn, chat, i, acc, s))
  {
    var br := BlockOf(fx, op, op.context(chat, s.toolUseID), s.text);
    assert br.accepted <==> br.action == Compressed;
    assert !br.accepted ==> br.action == NoOp || br.action == RejectedTokens;
  }

  ghost predicate TalliesOne(acc: Acc, next: Acc) {
    |next.outcomes| == |acc.outcomes| + 1 && Tallies(acc, next, next.outcomes[|acc.outcomes|])
  }

  lemma {:induction false} ImageTallies(fx: Fixed, op: Options, replaying: bool, turn: nat, i: nat, acc: Acc,
                                        s: PlanSlot)
    ensures TalliesOne(acc, FreshImage(fx, op, replaying, turn, i, acc, s))
  {
  }

  lemma {:induction false} SkipTallies(acc: Acc, o: Outcome)
    requires o.action == SkippedHotZone || o.action == SkippedBelowThreshold || o.action == SkippedUnreachable
    ensures TalliesOne(acc, acc.(outcomes := acc.outcomes + [o]))
  {
  }

  lemma {:induction false} FreshTalliesOne(fx: Fixed, op: Options, replaying: bool, turn: nat, chat: Chat, i: nat,
                                           claimed: set<int>, acc: Acc, s: PlanSlot)
    requires s.start !in claimed
    ensures TalliesOne(acc, FreshSlot(fx, op, replaying, turn, chat, i, claimed, acc, s))
  {
    match s.kind
    case HotZone => SkipTallies(acc, Note(i, s, SkippedHotZone));
    case BelowThreshold => SkipTallies(acc, Note(i, s, SkippedBelowThreshold));
    case Unreachable => SkipTallies(acc, Note(i, s, SkippedUnreachable));
    case ImageData => ImageTallies(fx, op, replaying, turn, i, acc, s);
    case _ => TextTallies(fx, op, replaying, turn, chat, i, acc, s);
  }

  lemma {:induction false} FreshTallies(fx: Fixed, op: Options, replaying: bool, turn: nat, chat: Chat, i: nat,
                                        claimed: set<int>, acc: Acc, s: PlanSlot)
    requires Tallied(acc)
    ensures Tallied(FreshSlot(fx, op, replaying, turn, chat, i, claimed, acc, s))
  {
    if s.start !in claimed {
      var next := FreshSlot(fx, op, replaying, turn, chat, i, claimed, acc, s);
      FreshTalliesOne(fx, op, replaying, turn, chat, i, claimed, acc, s);
      OneMoreOutcome(acc, next, next.outcomes[|acc.outcomes|]);
    }
  }

  lemma {:induction false} ReplaySlotsTally(fx: Fixed, op: Options, turn: nat, i: nat, acc: Acc, slots: seq<PlanSlot>)
    requires Tallied(acc)
    ensures Tallied(ReplaySlots(fx, op, turn, i, acc, slots))
  {
    if slots != [] {
      ReplaySlotsTally(fx, op, turn, i, acc, slots[..|slots| - 1]);
      ReplayTallies(fx, op, turn, i, ReplaySlots(fx, op, turn, i, acc, slots[..|slots| - 1]), slots[|slots| - 1]);
    }
  }

  lemma {:induction false} ReplayMessagesTally(fx: Fixed, op: Options, turn: nat, chat: Chat, acc: Acc, n: nat)
    requires n <= |chat.messages| && Tallied(acc)
    ensures Tallied(ReplayMessages(fx, op, turn, chat, acc, n))
  {
    if n > 0 {
      ReplayMessagesTally(fx, op, turn, chat, acc, n - 1);
      ReplaySlotsTally(fx, op, turn, n - 1, ReplayMessages(fx, op, turn, chat, acc, n - 1), PlanAt(chat, n - 1));
    }
  }

  lemma {:induction false} FreshSlotsTally(fx: Fixed, op: Options, replaying: bool, turn: nat, chat: Chat, i: nat,
                                           claimed: set<int>, acc: Acc, slots: seq<PlanSlot>)
    requires Tallied(acc)
    ensures Tallied(FreshSlots(fx, op, replaying, turn, chat, i, claimed, acc, slots))
  {
    if slots != [] {
      var init := slots[..|slots| - 1];
      FreshSlotsTally(fx, op, replaying, turn, chat, i, claimed, acc, init);
      FreshTallies(fx, op, replaying, turn, chat, i, claimed,
                   FreshSlots(fx, op, replaying, turn, chat, i, claimed, acc, init), slots[|slots| - 1]);
    }
  }

  lemma {:induction false} PassesTally(fx: Fixed, op: Options, replaying: bool, turn: nat, chat: Chat, floor: nat,
                                       session: Session, store: StoreState)
    ensures Tallied(Passes(fx, op, replaying, turn, chat, floor, session, store))
  {
    var half := ReplayPass(fx, op, replaying, turn, chat, session, store);
    assert Tallied(Start(session, store));
    if replaying {
      ReplayMessagesTally(fx, op, turn, chat, Start(session, store), |chat.messages|);
    }
    match LatestUser(chat.messages, floor)
    case None =>
    case Some(i) => FreshSlotsTally(fx, op, replaying, turn, chat, i, Starts(half.reps), half, PlanAt(chat, i));
  }

  ghost function Dispatched(fx: Fixed, op: Options, replaying: bool, turn: nat, chat: Chat, floor: nat,
                            session: Session, store: StoreState): Result {
    ResultOf(chat, floor, Passes(fx, op, replaying, turn, chat, floor, session, store))
  }

  /** An applied dispatch reports the sums over the blocks it rewrote; any other reports
      none and forwards the body as it came. */
  lemma {:induction false} TotalsAreSums(fx: Fixed, op: Options, replaying: bool, turn: nat, chat: Chat, floor: nat,
                                         session: Session, store: StoreState)
    ensures var r := Dispatched(fx, op, replaying, turn, chat, floor, session, store);
            && r.tokensBefore == BeforeIn(r.blocks) && r.tokensAfter == AfterIn(r.blocks)
            && (r.applied <==> RewrittenIn(r.blocks) > 0)
            && (!r.applied ==> r.body == Render(chat) && r.rewritten == [] && r.tokensBefore == r.tokensAfter == 0)
            && r.frozen == floor
  {
    var acc := Passes(fx, op, replaying, turn, chat, floor, session, store);
    PassesTally(fx, op, replaying, turn, chat, floor, session, store);
    if acc.reps == [] {
      NothingCounted(acc.outcomes);
    }
  }

  lemma {:induction false} NothingCounted(os: seq<Outcome>)
    requires RewrittenIn(os) == 0
    ensures BeforeIn(os) == 0 && AfterIn(os) == 0
  {
    if os != [] {
      NothingCounted(os[..|os| - 1]);
    }
  }

  /** The reason given is Ok when something was rewritten, and otherwise says whether
      there was no user message at or above the floor, whether some block failed the
      token gate, or neither. */
  lemma {:induction false} ReasonsAre(fx: Fixed, op: Options, replaying: bool, turn: nat, chat: Chat, floor: nat,
                                      session: Session, store: StoreState)
    ensures var r := Dispatched(fx, op, replaying, turn, chat, floor, session, store);
            var live := exists i :: floor <= i < |chat.messages| && chat.messages[i].user;
            && (r.reason == Ok <==> r.applied)
            && (r.reason == NoLiveZone <==> !r.applied && !live)
            && (r.reason == AllRejected <==> !r.applied && live && SomeRejected(r.blocks))
            && (r.reason == NoCandidates <==> !r.applied && live && !SomeRejected(r.blocks))
  {
    var acc := Passes(fx, op, replaying, turn, chat, floor, session, store);
    PassesTally(fx, op, replaying, turn, chat, floor, session, store);
    var live := LatestUser(chat.messages, floor);
    if live.Some? && PlanAt(chat, live.value) == [] && acc.reps == [] {
      var half := ReplayPass(fx, op, replaying, turn, chat, session, store);
      assert acc == half;
      ReplayNeverRejects(fx, op, replaying, turn, chat, session, store);
    }
  }

  lemma {:induction false} ReplayNeverRejects(fx: Fixed, op: Options, replaying: bool, turn: nat, chat: Chat,
                                              session: Session, store: StoreState)
    ensures !ReplayPass(fx, op, replaying, turn, chat, session, store).rejected
  {
    if replaying {
      MessagesNeverReject(fx, op, turn, chat, Start(session, store), |chat.messages|);
    }
  }

  lemma {:induction false} MessagesNeverReject(fx: Fixed, op: Options, turn: nat, chat: Chat, acc: Acc, n: nat)
    requires n <= |chat.messages|
    ensures ReplayMessages(fx, op, turn, chat, acc, n).rejected == acc.rejected
  {
    if n > 0 {
      MessagesNeverReject(fx, op, turn, chat, acc, n - 1);
      SlotsNeverReject(fx, op, turn, n - 1, ReplayMessages(fx, op, turn, chat, acc, n - 1), PlanAt(chat, n - 1));
    }
  }

  lemma {:induction false} SlotsNeverReject(fx: Fixed, op: Options, turn: nat, i: nat, acc: Acc, slots: seq<PlanSlot>)
    ensures ReplaySlots(fx, op, turn, i, acc, slots).rejected == acc.rejected
  {
    if slots != [] {
      SlotsNeverReject(fx, op, turn, i, acc, slots[..|slots| - 1]);
    }
  }
}
