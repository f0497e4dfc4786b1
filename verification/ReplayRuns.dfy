/** Whole runs of the proxy: one session, one turn after another. */
module ReplayRuns {

  import opened Common
  import opened Splice
  import opened Replay
  import opened LiveZone
  import opened BodyLayout
  import opened PrefixStability

  /** What one turn brings: the client's conversation, the options in force, and
      whatever the store holds by then. */
  datatype TurnInput = TurnInput(op: Options, chat: Chat, store: StoreState)

  /** The session once the turn is opened; the wiring passes the old count as floor. */
  ghost function Opening(session: Session, t: TurnInput): Session {
    Apply(session, SessionOp.Open(|t.chat.messages|))
  }

  ghost function ReplayHalf(fx: Fixed, session: Session, t: TurnInput): Acc {
    var o := Opening(session, t);
    ReplayPass(fx, t.op, true, o.turn, t.chat, o, t.store)
  }

  /** Both passes of a turn, floored at what the previous turn sent. */
  ghost function TurnAcc(fx: Fixed, session: Session, t: TurnInput): Acc {
    var o := Opening(session, t);
    Passes(fx, t.op, true, o.turn, t.chat, session.sentCount, o, t.store)
  }

  ghost function Live(session: Session, t: TurnInput): Option<nat> { LatestUser(t.chat.messages, session.sentCount) }

  ghost predicate Calm(fx: Fixed, session: Session, t: TurnInput) {
    WellFormed(t.chat) && KeysNonEmpty(fx) && Undeclined(ReplayHalf(fx, session, t))
  }

  // ---- one turn ----

  /** A fresh recording never touches a key replay already answered for. */
  lemma {:induction false} FreshSparesOldKeys(fx: Fixed, session: Session, t: TurnInput, k: Key)
    requires Calm(fx, session, t) && k in Opening(session, t).blocks
    ensures k in TurnAcc(fx, session, t).session.blocks && k in ReplayHalf(fx, session, t).session.blocks
    ensures TurnAcc(fx, session, t).session.blocks[k] == ReplayHalf(fx, session, t).session.blocks[k]
    ensures TurnAcc(fx, session, t).session.blocks[k].text == Opening(session, t).blocks[k].text
  {
    var o := Opening(session, t);
    var half := ReplayHalf(fx, session, t);
    var acc := TurnAcc(fx, session, t);
    ReplayMessagesEffect(fx, t.op, o.turn, t.chat, Start(o, t.store), |t.chat.messages|);
    match Live(session, t)
    case None =>
    case Some(i) =>
      FreshSlotsEffect(fx, t.op, o.turn, t.chat, i, Starts(half.reps), half, PlanAt(t.chat, i));
      forall s | s in PlanAt(t.chat, i) && Hit(fx, o.blocks, s) ensures s.start in Starts(half.reps) {
        assert Rep(fx, o.blocks, s) in half.reps;
      }
  }

  lemma {:induction false} TurnReps(fx: Fixed, session: Session, t: TurnInput)
    requires Calm(fx, session, t)
    ensures DistinctStarts(TurnAcc(fx, session, t).reps)
    ensures forall r :: r in ReplayHalf(fx, session, t).reps ==> r in TurnAcc(fx, session, t).reps
    ensures TurnAcc(fx, session, t).session.turn == session.turn + 1
    ensures TurnAcc(fx, session, t).session.sentCount == |t.chat.messages|
  {
    var o := Opening(session, t);
    var half := ReplayHalf(fx, session, t);
    ReplayMessagesEffect(fx, t.op, o.turn, t.chat, Start(o, t.store), |t.chat.messages|);
    ReplayMessagesDistinct(fx, t.op, o.turn, t.chat, Start(o, t.store), |t.chat.messages|);
    match Live(session, t)
    case None =>
    case Some(i) =>
      PlanIsApart(t.chat, i);
      FreshSlotsEffect(fx, t.op, o.turn, t.chat, i, Starts(half.reps), half, PlanAt(t.chat, i));
      FreshSlotsDistinct(fx, t.op, o.turn, t.chat, i, Starts(half.reps), half, PlanAt(t.chat, i));
  }

  /** A slot whose key the session knew goes out as recorded, and stays known. */
  lemma {:induction false} KnownSlot(fx: Fixed, session: Session, t: TurnInput, i: nat, s: PlanSlot)
    requires Calm(fx, session, t) && i < |t.chat.messages| && s in PlanAt(t.chat, i)
    requires Hit(fx, Opening(session, t).blocks, s)
    ensures var acc := TurnAcc(fx, session, t);
            var o := Opening(session, t);
            && RepAt(acc.reps, s.start) == Some(fx.encode(o.blocks[KeyOf(fx, s)].text))
            && KeyOf(fx, s) in acc.session.blocks
            && acc.session.blocks[KeyOf(fx, s)] == Entry(o.blocks[KeyOf(fx, s)].text, o.turn)
  {
    var o := Opening(session, t);
    ReplayMessagesEffect(fx, t.op, o.turn, t.chat, Start(o, t.store), |t.chat.messages|);
    TurnReps(fx, session, t);
    FreshSparesOldKeys(fx, session, t, KeyOf(fx, s));
    RepAtIs(TurnAcc(fx, session, t).reps, Rep(fx, o.blocks, s));
  }

  /** A slot whose key the session did not know is rewritten only in the live
      message, and only together with a recording of its key. */
  lemma {:induction false} UnknownSlot(fx: Fixed, session: Session, t: TurnInput, i: nat, s: PlanSlot)
    requires Calm(fx, session, t) && i < |t.chat.messages| && s in PlanAt(t.chat, i)
    requires Replayable(s) && !Hit(fx, Opening(session, t).blocks, s)
    ensures var acc := TurnAcc(fx, session, t);
            RepAt(acc.reps, s.start).Some? ==> Live(session, t) == Some(i) && KeyOf(fx, s) in acc.session.blocks
  {
    var o := Opening(session, t);
    var half := ReplayHalf(fx, session, t);
    var acc := TurnAcc(fx, session, t);
    if RepAt(acc.reps, s.start).Some? {
      ReplayMessagesEffect(fx, t.op, o.turn, t.chat, Start(o, t.store), |t.chat.messages|);
      RepAtMember(acc.reps, s.start);
      var r :| r in acc.reps && r.start == s.start && r.repl == RepAt(acc.reps, s.start).value;
      if r in half.reps {
        var i', s' :| 0 <= i' < |t.chat.messages| && s' in PlanAt(t.chat, i') && Hit(fx, o.blocks, s')
                      && r == Rep(fx, o.blocks, s');
        SameStartSameSlot(t.chat, i, s, i', s');
        assert false;
      } else {
        LiveReplacement(fx, session, t, i, s, r);
      }
    }
  }

  lemma {:induction false} LiveReplacement(fx: Fixed, session: Session, t: TurnInput, i: nat, s: PlanSlot,
                                           r: Replacement)
    requires Calm(fx, session, t) && i < |t.chat.messages| && s in PlanAt(t.chat, i) && Replayable(s)
    requires r in TurnAcc(fx, session, t).reps && r !in ReplayHalf(fx, session, t).reps && r.start == s.start
    ensures Live(session, t) == Some(i) && KeyOf(fx, s) in TurnAcc(fx, session, t).session.blocks
  {
    var half := ReplayHalf(fx, session, t);
    var o := Opening(session, t);
    match Live(session, t)
    case None =>
    case Some(j) =>
      FreshSlotsEffect(fx, t.op, o.turn, t.chat, j, Starts(half.reps), half, PlanAt(t.chat, j));
      var s' :| s' in PlanAt(t.chat, j) && Unclaimed(Starts(half.reps), s') && Over(r, s')
                && KeyOf(fx, s') in TurnAcc(fx, session, t).session.blocks;
      SameStartSameSlot(t.chat, i, s, j, s');
  }

  /** Whatever this turn learnt, it was last seen this turn. */
  lemma {:induction false} LearntThisTurn(fx: Fixed, session: Session, t: TurnInput, k: Key)
    requires Calm(fx, session, t) && k in TurnAcc(fx, session, t).session.blocks && k !in Opening(session, t).blocks
    ensures TurnAcc(fx, session, t).session.blocks[k].seen == session.turn + 1
  {
    var half := ReplayHalf(fx, session, t);
    var o := Opening(session, t);
    ReplayMessagesEffect(fx, t.op, o.turn, t.chat, Start(o, t.store), |t.chat.messages|);
    match Live(session, t)
    case None =>
    case Some(i) =>
      FreshSlotsEffect(fx, t.op, o.turn, t.chat, i, Starts(half.reps), half, PlanAt(t.chat, i));
  }

  /** All replacements of a turn lie on distinct slots, so the splice is structural. */
  lemma {:induction false} TurnSlotReps(fx: Fixed, session: Session, t: TurnInput)
    requires Calm(fx, session, t)
    ensures SlotReps(t.chat, TurnAcc(fx, session, t).reps)
  {
    var o := Opening(session, t);
    var half := ReplayHalf(fx, session, t);
    var acc := TurnAcc(fx, session, t);
    TurnReps(fx, session, t);
    ReplayMessagesEffect(fx, t.op, o.turn, t.chat, Start(o, t.store), |t.chat.messages|);
    forall a | 0 <= a < |acc.reps|
      ensures IsSlot(Pieces(t.chat.messages), |t.chat.head|, acc.reps[a].start, acc.reps[a].end)
    {
      var r := acc.reps[a];
      if r in half.reps {
        var i, s :| 0 <= i < |t.chat.messages| && s in PlanAt(t.chat, i) && Hit(fx, o.blocks, s)
                    && r == Rep(fx, o.blocks, s);
        PlanAtIsSlot(t.chat, i, s);
      } else {
        assert r in acc.reps;
        FreshIsSlot(fx, session, t, r);
      }
    }
  }

  lemma {:induction false} FreshIsSlot(fx: Fixed, session: Session, t: TurnInput, r: Replacement)
    requires Calm(fx, session, t) && r in TurnAcc(fx, session, t).reps && r !in ReplayHalf(fx, session, t).reps
    ensures IsSlot(Pieces(t.chat.messages), |t.chat.head|, r.start, r.end)
  {
    var half := ReplayHalf(fx, session, t);
    var o := Opening(session, t);
    match Live(session, t)
    case None =>
    case Some(i) =>
      FreshSlotsEffect(fx, t.op, o.turn, t.chat, i, Starts(half.reps), half, PlanAt(t.chat, i));
      var s :| s in PlanAt(t.chat, i) && Unclaimed(Starts(half.reps), s) && Over(r, s)
               && KeyOf(fx, s) in TurnAcc(fx, session, t).session.blocks;
      PlanAtIsSlot(t.chat, i, s);
  }

  // ---- one part of one message ----

  /** The key a part is remembered under, wherever the part sits. */
  ghost function PartKey(fx: Fixed, whole: bool, p: Part): Key
    requires p.Slot?
  {
    KeyOf(fx, PlanOne(whole, p.block, 0))
  }

  ghost function PartOffset(chat: Chat, i: nat, j: nat): nat
    requires i < |chat.messages| && j <= |chat.messages[i].parts|
  {
    MessageStart(chat, i) + |RenderParts(chat.messages[i].parts[..j])|
  }

  lemma {:induction false} RenderPrefix(parts: seq<Part>, j: nat)
    requires 0 < j <= |parts|
    ensures |RenderParts(parts[..j])| == |PartBytes(parts[0])| + |RenderParts(parts[1..][..j - 1])|
  {
    assert parts[..j][0] == parts[0] && parts[..j][1..] == parts[1..][..j - 1];
  }

  lemma {:induction false} OutPartsAt(whole: bool, parts: seq<Part>, offset: nat, reps: seq<Replacement>, j: nat)
    requires j < |parts|
    ensures OutParts(whole, parts, offset, reps)[j]
         == OutPart(whole, parts[j], offset + |RenderParts(parts[..j])|, reps)
  {
    if j > 0 {
      OutPartsAt(whole, parts[1..], offset + |PartBytes(parts[0])|, reps, j - 1);
      RenderPrefix(parts, j);
    }
  }

  lemma {:induction false} PlanHas(whole: bool, parts: seq<Part>, offset: nat, j: nat)
    requires j < |parts| && parts[j].Slot?
    ensures PlanOne(whole, parts[j].block, offset + |RenderParts(parts[..j])|) in Plan(whole, parts, offset)
  {
    if j > 0 {
      PlanHas(whole, parts[1..], offset + |PartBytes(parts[0])|, j - 1);
      RenderPrefix(parts, j);
    }
  }

  /** The planned slot of an eligible part. */
  ghost function SlotOf(chat: Chat, i: nat, j: nat): PlanSlot
    requires i < |chat.messages| && j < |chat.messages[i].parts| && chat.messages[i].parts[j].Slot?
  {
    PlanOne(chat.messages[i].whole, chat.messages[i].parts[j].block, PartOffset(chat, i, j))
  }

  lemma {:induction false} SlotOfEligible(fx: Fixed, chat: Chat, i: nat, j: nat)
    requires WellFormed(chat) && i < |chat.messages| && j < |chat.messages[i].parts|
    requires Eligible(chat.messages[i].whole, chat.messages[i].parts[j])
    ensures var s := SlotOf(chat, i, j);
            && s in PlanAt(chat, i) && Replayable(s) && s.start == PartOffset(chat, i, j)
            && KeyOf(fx, s) == PartKey(fx, chat.messages[i].whole, chat.messages[i].parts[j])
  {
    var m := chat.messages[i];
    PlanHas(m.whole, m.parts, MessageStart(chat, i), j);
    assert ProperPart(m.whole, m.parts[j]);
  }

  /** What part j of message i goes out as on turn t. */
  ghost function Sent(fx: Fixed, session: Session, t: TurnInput, i: nat, j: nat): Bytes
    requires i < |t.chat.messages| && j < |t.chat.messages[i].parts|
  {
    OutPart(t.chat.messages[i].whole, t.chat.messages[i].parts[j], PartOffset(t.chat, i, j),
            TurnAcc(fx, session, t).reps)
  }

  lemma {:induction false} SentIsOut(fx: Fixed, session: Session, t: TurnInput, i: nat, j: nat)
    requires i < |t.chat.messages| && j < |t.chat.messages[i].parts|
    ensures OutMessage(t.chat, i, TurnAcc(fx, session, t).reps)[j] == Sent(fx, session, t, i, j)
  {
    var m := t.chat.messages[i];
    OutPartsAt(m.whole, m.parts, MessageStart(t.chat, i), TurnAcc(fx, session, t).reps, j);
  }

  /** Part (i, j) is eligible and its key was recorded for the first time this turn. */
  ghost predicate Learnt(fx: Fixed, session: Session, t: TurnInput, i: nat, j: nat)
    requires i < |t.chat.messages| && j < |t.chat.messages[i].parts|
  {
    var m := t.chat.messages[i];
    && Eligible(m.whole, m.parts[j])
    && PartKey(fx, m.whole, m.parts[j]) in TurnAcc(fx, session, t).session.blocks
    && PartKey(fx, m.whole, m.parts[j]) !in Opening(session, t).blocks
  }

  /** Everything learnt this turn was itself sent as it was recorded. */
  ghost predicate Steady(fx: Fixed, session: Session, t: TurnInput) {
    forall i, j :: 0 <= i < |t.chat.messages| && 0 <= j < |t.chat.messages[i].parts| && Learnt(fx, session, t, i, j) ==>
      var m := t.chat.messages[i];
      Sent(fx, session, t, i, j)
        == fx.encode(TurnAcc(fx, session, t).session.blocks[PartKey(fx, m.whole, m.parts[j])].text)
  }

  /** The next turn re-sends at least the same messages, slot kinds included. */
  ghost predicate Appends(t: TurnInput, u: TurnInput) { t.chat.messages <= u.chat.messages }

  /** On the next turn, an old part goes out as recorded when its key is known by
      now, and as the client sent it otherwise. */
  lemma {:induction false} NextTurnSends(fx: Fixed, session: Session, t: TurnInput, u: TurnInput, i: nat, j: nat)
    requires Calm(fx, session, t) && Calm(fx, TurnAcc(fx, session, t).session, u) && Appends(t, u)
    requires i < |t.chat.messages| && j < |t.chat.messages[i].parts|
    ensures var m := t.chat.messages[i];
            var mid := TurnAcc(fx, session, t).session;
            Sent(fx, mid, u, i, j) ==
              if Eligible(m.whole, m.parts[j]) && PartKey(fx, m.whole, m.parts[j]) in mid.blocks
              then fx.encode(mid.blocks[PartKey(fx, m.whole, m.parts[j])].text)
              else PartBytes(m.parts[j])
  {
    var m := t.chat.messages[i];
    assert u.chat.messages[i] == m;
    var mid := TurnAcc(fx, session, t).session;
    if Eligible(m.whole, m.parts[j]) {
      var k := PartKey(fx, m.whole, m.parts[j]);
      SlotOfEligible(fx, t.chat, i, j);
      SlotOfEligible(fx, u.chat, i, j);
      TurnReps(fx, session, t);
      if k in mid.blocks {
        SeenThisTurn(fx, session, t, i, j);
        assert k in Opening(mid, u).blocks;
        KnownSlot(fx, mid, u, i, SlotOf(u.chat, i, j));
      } else {
        UnknownSlot(fx, mid, u, i, SlotOf(u.chat, i, j));
      }
    }
  }

  lemma {:induction false} SeenThisTurn(fx: Fixed, session: Session, t: TurnInput, i: nat, j: nat)
    requires Calm(fx, session, t) && i < |t.chat.messages| && j < |t.chat.messages[i].parts|
    requires Eligible(t.chat.messages[i].whole, t.chat.messages[i].parts[j])
    requires PartKey(fx, t.chat.messages[i].whole, t.chat.messages[i].parts[j])
             in TurnAcc(fx, session, t).session.blocks
    ensures TurnAcc(fx, session, t)
            .session.blocks[PartKey(fx, t.chat.messages[i].whole, t.chat.messages[i].parts[j])].seen
         == session.turn + 1
  {
    var k := PartKey(fx, t.chat.messages[i].whole, t.chat.messages[i].parts[j]);
    if k in Opening(session, t).blocks {
      SlotOfEligible(fx, t.chat, i, j);
      KnownSlot(fx, session, t, i, SlotOf(t.chat, i, j));
    } else {
      LearntThisTurn(fx, session, t, k);
    }
  }

  /** This turn sent a part as the next one will, unless it learnt the part's key
      now and sent something else than it recorded. */
  lemma {:induction false} ThisTurnSent(fx: Fixed, session: Session, t: TurnInput, i: nat, j: nat)
    requires Calm(fx, session, t) && i < |t.chat.messages| && j < |t.chat.messages[i].parts|
    requires !Learnt(fx, session, t, i, j)
    ensures var m := t.chat.messages[i];
            var mid := TurnAcc(fx, session, t).session;
            Sent(fx, session, t, i, j) ==
              if Eligible(m.whole, m.parts[j]) && PartKey(fx, m.whole, m.parts[j]) in mid.blocks
              then fx.encode(mid.blocks[PartKey(fx, m.whole, m.parts[j])].text)
              else PartBytes(m.parts[j])
  {
    var m := t.chat.messages[i];
    if Eligible(m.whole, m.parts[j]) {
      SlotOfEligible(fx, t.chat, i, j);
      if PartKey(fx, m.whole, m.parts[j]) in Opening(session, t).blocks {
        KnownSlot(fx, session, t, i, SlotOf(t.chat, i, j));
      } else {
        UnknownSlot(fx, session, t, i, SlotOf(t.chat, i, j));
      }
    }
  }

  /** The rewritten messages of a turn. */
  ghost function OutAll(fx: Fixed, session: Session, t: TurnInput): seq<seq<Bytes>> {
    seq(|t.chat.messages|, i requires 0 <= i < |t.chat.messages| => OutMessage(t.chat, i, TurnAcc(fx, session, t).reps))
  }

  /** The messages of this turn go out again unchanged on the next one if and only if
      everything learnt this turn was sent as it was recorded. StableRuns says what
      that means for the turn's inputs. */
  lemma {:induction false} StableIffSteady(fx: Fixed, session: Session, t: TurnInput, u: TurnInput)
    requires Calm(fx, session, t) && Calm(fx, TurnAcc(fx, session, t).session, u) && Appends(t, u)
    ensures OutAll(fx, session, t) <= OutAll(fx, TurnAcc(fx, session, t).session, u) <==> Steady(fx, session, t)
  {
    var mid := TurnAcc(fx, session, t).session;
    var now, next := OutAll(fx, session, t), OutAll(fx, mid, u);
    if Steady(fx, session, t) {
      forall i | 0 <= i < |now| ensures now[i] == next[i] {
        forall j | 0 <= j < |now[i]| ensures now[i][j] == next[i][j] {
          SentIsOut(fx, session, t, i, j);
          SentIsOut(fx, mid, u, i, j);
          NextTurnSends(fx, session, t, u, i, j);
          if !Learnt(fx, session, t, i, j) {
            ThisTurnSent(fx, session, t, i, j);
          }
        }
      }
    } else {
      var i, j :| 0 <= i < |t.chat.messages| && 0 <= j < |t.chat.messages[i].parts| && Learnt(fx, session, t, i, j)
        && var m := t.chat.messages[i];
           Sent(fx, session, t, i, j) != fx.encode(mid.blocks[PartKey(fx, m.whole, m.parts[j])].text);
      SentIsOut(fx, session, t, i, j);
      SentIsOut(fx, mid, u, i, j);
      NextTurnSends(fx, session, t, u, i, j);
      assert now[i][j] != next[i][j];
    }
  }

  /** An earlier copy of a text, sent as it came while the newest copy was
      compressed and recorded, is rewritten one turn later. */
  lemma {:induction false} LearntIsRewritten(fx: Fixed, session: Session, t: TurnInput, u: TurnInput, i: nat, j: nat)
    requires Calm(fx, session, t) && Calm(fx, TurnAcc(fx, session, t).session, u) && Appends(t, u)
    requires i < |t.chat.messages| && j < |t.chat.messages[i].parts|
    requires Learnt(fx, session, t, i, j) && Live(session, t) != Some(i)
    ensures var m := t.chat.messages[i];
            var mid := TurnAcc(fx, session, t).session;
            && Sent(fx, session, t, i, j) == PartBytes(m.parts[j])
            && Sent(fx, mid, u, i, j) == fx.encode(mid.blocks[PartKey(fx, m.whole, m.parts[j])].text)
  {
    SlotOfEligible(fx, t.chat, i, j);
    UnknownSlot(fx, session, t, i, SlotOf(t.chat, i, j));
    NextTurnSends(fx, session, t, u, i, j);
  }

  // ---- whole runs ----

  ghost function After(fx: Fixed, session: Session, turns: seq<TurnInput>): Session {
    if turns == [] then session
    else TurnAcc(fx, After(fx, session, turns[..|turns| - 1]), turns[|turns| - 1]).session
  }

  ghost function Before(fx: Fixed, session: Session, turns: seq<TurnInput>, n: nat): Session
    requires n <= |turns|
  {
    After(fx, session, turns[..n])
  }

  ghost predicate GoodRun(fx: Fixed, session: Session, turns: seq<TurnInput>) {
    && (forall n :: 0 <= n < |turns| ==> Calm(fx, Before(fx, session, turns, n), turns[n]))
    && (forall n :: 0 <= n < |turns| ==> Steady(fx, Before(fx, session, turns, n), turns[n]))
    && (forall n :: 0 < n < |turns| ==> Appends(turns[n - 1], turns[n]))
  }

  lemma {:induction false} BeforeNext(fx: Fixed, session: Session, turns: seq<TurnInput>, n: nat)
    requires n < |turns|
    ensures Before(fx, session, turns, n + 1) == TurnAcc(fx, Before(fx, session, turns, n), turns[n]).session
  {
    assert turns[..n + 1][..n] == turns[..n];
  }

  ghost function OutAt(fx: Fixed, session: Session, turns: seq<TurnInput>, n: nat): seq<seq<Bytes>>
    requires n < |turns|
  {
    OutAll(fx, Before(fx, session, turns, n), turns[n])
  }

  lemma {:induction false} RunStep(fx: Fixed, session: Session, turns: seq<TurnInput>, n: nat)
    requires GoodRun(fx, session, turns) && n + 1 < |turns|
    ensures OutAt(fx, session, turns, n) <= OutAt(fx, session, turns, n + 1)
  {
    var s := Before(fx, session, turns, n);
    BeforeNext(fx, session, turns, n);
    assert Calm(fx, Before(fx, session, turns, n + 1), turns[n + 1]);
    assert Appends(turns[n], turns[n + 1]);
    StableIffSteady(fx, s, turns[n], turns[n + 1]);
  }

  ghost predicate Growing(fx: Fixed, session: Session, turns: seq<TurnInput>) {
    forall i :: 0 <= i && i + 1 < |turns| ==> OutAt(fx, session, turns, i) <= OutAt(fx, session, turns, i + 1)
  }

  lemma {:induction false} RunGrows(fx: Fixed, session: Session, turns: seq<TurnInput>)
    requires GoodRun(fx, session, turns)
    ensures Growing(fx, session, turns)
  {
    forall i | 0 <= i && i + 1 < |turns| ensures OutAt(fx, session, turns, i) <= OutAt(fx, session, turns, i + 1) {
      RunStep(fx, session, turns, i);
    }
  }

  lemma {:induction false} NextGrows(fx: Fixed, session: Session, turns: seq<TurnInput>, i: nat)
    requires Growing(fx, session, turns) && i + 1 < |turns|
    ensures OutAt(fx, session, turns, i) <= OutAt(fx, session, turns, i + 1)
  {
  }

  lemma {:induction false} GrowingFar(fx: Fixed, session: Session, turns: seq<TurnInput>, n: nat, m: nat)
    requires Growing(fx, session, turns) && n <= m < |turns|
    ensures OutAt(fx, session, turns, n) <= OutAt(fx, session, turns, m)
    decreases m
  {
    if n < m {
      GrowingFar(fx, session, turns, n, m - 1);
      NextGrows(fx, session, turns, m - 1);
    }
  }

  /** In a run where no replay is declined and everything learnt is sent as recorded,
      every later turn sends turn n's messages again, whatever the store names. */
  lemma {:induction false} SteadyRunIsStable(fx: Fixed, session: Session, turns: seq<TurnInput>, n: nat, m: nat)
    requires GoodRun(fx, session, turns) && n <= m < |turns|
    ensures OutAt(fx, session, turns, n) <= OutAt(fx, session, turns, m)
  {
    RunGrows(fx, session, turns);
    GrowingFar(fx, session, turns, n, m);
  }

  // ---- from messages to bytes ----

  ghost function JoinAll(ms: seq<seq<Bytes>>): Bytes {
    if ms == [] then "" else Joined(ms[0]) + JoinAll(ms[1..])
  }

  lemma {:induction false} JoinAllAppend(a: seq<seq<Bytes>>, b: seq<seq<Bytes>>)
    ensures JoinAll(a + b) == JoinAll(a) + JoinAll(b)
  {
    if a == [] {
      assert a + b == b;
    } else {
      assert (a + b)[1..] == a[1..] + b;
      JoinAllAppend(a[1..], b);
      SeqAssoc(Joined(a[0]), JoinAll(a[1..]), JoinAll(b));
    }
  }

  lemma {:induction false} OutFromJoins(fx: Fixed, session: Session, t: TurnInput, i: nat)
    requires i <= |t.chat.messages|
    ensures OutFrom(t.chat, i, TurnAcc(fx, session, t).reps) == JoinAll(OutAll(fx, session, t)[i..])
    decreases |t.chat.messages| - i
  {
    if i < |t.chat.messages| {
      OutFromJoins(fx, session, t, i + 1);
      assert OutAll(fx, session, t)[i..][1..] == OutAll(fx, session, t)[i + 1..];
    }
  }

  /** The body a turn forwards is its head, its rewritten messages and its tail,
      whether or not anything was rewritten. */
  lemma {:induction false} ForwardedBody(fx: Fixed, session: Session, t: TurnInput)
    requires Calm(fx, session, t)
    ensures ResultOf(t.chat, session.sentCount, TurnAcc(fx, session, t)).body
         == t.chat.head + JoinAll(OutAll(fx, session, t)) + t.chat.tail
  {
    var acc := TurnAcc(fx, session, t);
    TurnSlotReps(fx, session, t);
    SpliceIsStructural(t.chat, acc.reps);
    OutFromJoins(fx, session, t, 0);
    assert OutAll(fx, session, t)[0..] == OutAll(fx, session, t);
    if acc.reps == [] {
      assert Accepted(Render(t.chat), acc.reps) == [];
      assert Render(t.chat)[0..] == Render(t.chat);
    }
  }

  /** The body a turn forwards. */
  ghost function TurnBody(fx: Fixed, session: Session, t: TurnInput): Bytes {
    ResultOf(t.chat, session.sentCount, TurnAcc(fx, session, t)).body
  }

  ghost function BodyAt(fx: Fixed, session: Session, turns: seq<TurnInput>, n: nat): Bytes
    requires n < |turns|
  {
    TurnBody(fx, Before(fx, session, turns, n), turns[n])
  }

  /** When a later turn's messages open with this one's, so do the bodies, up to the end
      of the messages. */
  lemma {:induction false} BodiesSharePrefix(fx: Fixed, session: Session, turns: seq<TurnInput>, n: nat, m: nat)
    requires n <= m < |turns| && OutAt(fx, session, turns, n) <= OutAt(fx, session, turns, m)
    requires Calm(fx, Before(fx, session, turns, n), turns[n]) && Calm(fx, Before(fx, session, turns, m), turns[m])
    requires turns[n].chat.head == turns[m].chat.head
    ensures var bn, bm := BodyAt(fx, session, turns, n), BodyAt(fx, session, turns, m);
            |turns[n].chat.tail| <= |bn| && bn[..|bn| - |turns[n].chat.tail|] <= bm
  {
    var sn, sm := Before(fx, session, turns, n), Before(fx, session, turns, m);
    ForwardedBody(fx, sn, turns[n]);
    ForwardedBody(fx, sm, turns[m]);
    BytesSharePrefix(turns[n].chat.head, OutAll(fx, sn, turns[n]), turns[n].chat.tail,
                     OutAll(fx, sm, turns[m]), turns[m].chat.tail);
  }

  lemma {:induction false} BytesSharePrefix(head: Bytes, a: seq<seq<Bytes>>, tail: Bytes, b: seq<seq<Bytes>>,
                                            tail': Bytes)
    requires a <= b
    ensures var bn := head + JoinAll(a) + tail;
            bn[..|bn| - |tail|] <= head + JoinAll(b) + tail'
  {
    var rest := b[|a|..];
    assert b == a + rest;
    JoinAllAppend(a, rest);
    assert (head + JoinAll(a) + tail)[..|head + JoinAll(a)|] == head + JoinAll(a);
    SeqAssoc(head, JoinAll(a), JoinAll(rest));
    SeqAssoc(head + JoinAll(a), JoinAll(rest), tail');
  }
}
