/** One request: internal/proxy/forward.go opens the session, takes its floor and dispatches. */
module ProxyTurn {

  import opened Common
  import opened Replay
  import opened LiveZone
  import opened ReplayRuns

  /** What the table holds for a session key; a key it does not know starts fresh. */
  ghost function SessionFor(t: Table, key: string): Session
    requires Inv(t)
  {
    if key in t.live then t.heap[t.live[key]] else FRESH
  }

  /** Opening a session hands out its old floor and ticks its clock. */
  lemma {:induction false} BeginOpens(t: Table, key: string, count: nat)
    requires Inv(t)
    ensures var u := Step(t, Begin(key, count));
            && Inv(u) && key in u.live && u.live[key] == Opened(t, key).sess
            && SessionFor(u, key) == Apply(SessionFor(t, key), SessionOp.Open(count))
            && Opened(t, key).floor == SessionFor(t, key).sentCount
            && Opened(t, key).turn == SessionFor(u, key).turn
            && forall k :: k != key && k in u.live ==> k in t.live && SessionFor(u, k) == SessionFor(t, k)
  {
    StepKeepsInv(t, Begin(key, count));
  }

  /** Dispatching through the handle of a session just opened from s is that session's
      turn, and changes nothing else in the table. */
  method DispatchHeld(fx: Fixed, op: Options, h: SessionReplay, store: Store?, chat: Chat, ghost s: Session)
    returns (r: Result)
    requires h.Valid() && (op.hasStore <==> store != null) && (store != null ==> store.lose == op.lose)
    requires var input := TurnInput(op, chat, StateOf(store));
             h.sess.Value() == Opening(s, input) && h.floor == s.sentCount && h.turn == Opening(s, input).turn
    modifies h.sess, store
    ensures h.Valid()
    ensures var acc := TurnAcc(fx, s, TurnInput(op, chat, old(StateOf(store))));
            && r == ResultOf(chat, s.sentCount, acc)
            && h.parent.Abs() == old(h.parent.Abs()).(heap := old(h.parent.Abs()).heap[h.id := acc.session])
  {
    ghost var before := h.parent.Abs();
    r := Dispatch(fx, op, h, store, h.floor, Conversation(chat));
    assert h.parent.Abs().heap == before.heap[h.id := h.sess.Value()];
  }

  /** The table after the session's turn has left `now` in it. */
  ghost function AfterTurn(t: Table, key: string, count: nat, now: Session): Table
    requires Inv(t)
  {
    var begun := Step(t, Begin(key, count));
    if Opened(t, key).sess < |begun.heap| then begun.(heap := begun.heap[Opened(t, key).sess := now]) else begun
  }

  /** One request end to end is one turn of the run model: from table t and that store,
      the same result, and the table with the session's new state. */
  method ForwardTurn(fx: Fixed, op: Options, replays: ReplayState, store: Store?, sessionKey: string, chat: Chat,
                     ghost t: Table, ghost state: StoreState) returns (r: Result)
    requires replays.Valid() && t == replays.Abs() && state == StateOf(store)
    requires (op.hasStore <==> store != null) && (store != null ==> store.lose == op.lose)
    modifies replays, replays.heap, store
    ensures replays.Valid()
    ensures var s := SessionFor(t, sessionKey);
            var acc := TurnAcc(fx, s, TurnInput(op, chat, state));
            && r == ResultOf(chat, s.sentCount, acc)
            && replays.Abs() == AfterTurn(t, sessionKey, |chat.messages|, acc.session)
  {
    var h := replays.Begin(sessionKey, |chat.messages|);
    ghost var begun := replays.Abs();
    ghost var s, input := SessionFor(t, sessionKey), TurnInput(op, chat, state);
    HandleSees(t, begun, h.AsHandle(), sessionKey, input);
    assert h.sess.Value() == begun.heap[h.id];
    assert StateOf(store) == state;
    r := DispatchHeld(fx, op, h, store, chat, s);
    assert r == ResultOf(chat, s.sentCount, TurnAcc(fx, s, input));
    AfterTurnIs(t, sessionKey, |chat.messages|, TurnAcc(fx, s, input).session);
  }

  lemma {:induction false} AfterTurnIs(t: Table, key: string, count: nat, now: Session)
    requires Inv(t)
    ensures var begun, id := Step(t, Begin(key, count)), Opened(t, key).sess;
            id < |begun.heap| && AfterTurn(t, key, count, now) == begun.(heap := begun.heap[id := now])
  {
    BeginOpens(t, key, count);
  }

  lemma {:induction false} HandleSees(t: Table, begun: Table, h: Handle, key: string, input: TurnInput)
    requires Inv(t) && begun == Step(t, Begin(key, |input.chat.messages|)) && h == Opened(t, key)
    ensures h.sess < |begun.heap| && begun.heap[h.sess] == Opening(SessionFor(t, key), input)
    ensures h.floor == SessionFor(t, key).sentCount && h.turn == begun.heap[h.sess].turn
  {
    BeginOpens(t, key, |input.chat.messages|);
  }

  /** After the turn the session holds `now`; every other live one is as it was. */
  ghost predicate TurnLeaves(t: Table, u: Table, key: string, now: Session)
    requires Inv(t) && Inv(u)
  {
    && key in u.live && SessionFor(u, key) == now
    && forall k :: k != key && k in u.live ==> k in t.live && SessionFor(u, k) == SessionFor(t, k)
  }

  /** A turn leaves its session in its new state and touches no other. */
  lemma {:induction false} TurnLeft(t: Table, key: string, count: nat, now: Session)
    requires Inv(t)
    ensures Inv(AfterTurn(t, key, count, now)) && TurnLeaves(t, AfterTurn(t, key, count, now), key, now)
  {
    var begun, after := Step(t, Begin(key, count)), AfterTurn(t, key, count, now);
    BeginOpens(t, key, count);
    OnlyOneChanged(begun, after, Opened(t, key).sess);
  }

  lemma {:induction false} OnlyOneChanged(t: Table, u: Table, id: nat)
    requires Inv(t) && Inv(u) && u.live == t.live && |u.heap| == |t.heap|
    requires forall i :: 0 <= i < |t.heap| && i != id ==> u.heap[i] == t.heap[i]
    ensures forall k :: k in t.live && t.live[k] != id ==> SessionFor(u, k) == SessionFor(t, k)
  {
  }
}
