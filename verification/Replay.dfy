/** Per-session replay state: internal/cachestab/replay.go. */
module Replay {

  // The first half is the specification: one session as a value, and the whole
  // table of sessions as a machine stepped by the four locked operations. The
  // classes of the second half are proved against it.

  import opened Common

  type Key = string
  type Text = string

  datatype Entry = Entry(text: Text, seen: nat)

  datatype Session = Session(turn: nat, sentCount: nat, blocks: map<Key, Entry>)

  const STALE_TURNS: nat := 3
  const DEFAULT_CAPACITY: nat := 256
  const FRESH := Session(0, 0, map[])

  // ---- one session ----

  ghost predicate Stale(s: Session, k: Key)
    requires k in s.blocks
  {
    s.turn > STALE_TURNS && s.blocks[k].seen < s.turn - STALE_TURNS
  }

  ghost function Swept(s: Session): Session {
    s.(blocks := map k | k in s.blocks && !Stale(s, k) :: s.blocks[k])
  }

  datatype SessionOp =
    | Open(count: nat)
    | Look(turn: nat, key: Key)
    | Keep(turn: nat, key: Key, text: Text)
    | Drop(key: Key)

  ghost function Apply(s: Session, op: SessionOp): Session {
    match op
    case Open(count) => Swept(s.(turn := s.turn + 1)).(sentCount := count)
    case Look(turn, k) => if k in s.blocks then s.(blocks := s.blocks[k := s.blocks[k].(seen := turn)]) else s
    case Keep(turn, k, text) => s.(blocks := s.blocks[k := Entry(text, turn)])
    case Drop(k) => s.(blocks := s.blocks - {k})
  }

  ghost function ApplyAll(s: Session, ops: seq<SessionOp>): Session {
    if ops == [] then s else Apply(ApplyAll(s, ops[..|ops| - 1]), ops[|ops| - 1])
  }

  // ---- the table of sessions ----

  /** heap holds every session ever opened, so that a handle can outlive the
      eviction of its session; live and order are the source's two fields. */
  datatype Table = Table(capacity: nat, live: map<string, nat>, order: seq<string>, heap: seq<Session>)

  datatype Handle = Handle(sess: nat, floor: nat, first: bool, turn: nat)

  datatype Op =
    | Begin(session: string, count: nat)
    | Lookup(handle: Handle, key: Key)
    | Record(handle: Handle, key: Key, text: Text)
    | Forget(handle: Handle, key: Key)

  /** The order list names each live session once and nothing else, fits the
      capacity, and distinct live sessions are distinct objects. */
  ghost predicate Inv(t: Table) {
    && 1 <= t.capacity && |t.order| <= t.capacity
    && Unique(t.order)
    && (forall k :: k in t.order <==> k in t.live)
    && (forall k :: k in t.live ==> t.live[k] < |t.heap|)
    && (forall a, b :: a in t.live && b in t.live && t.live[a] == t.live[b] ==> a == b)
  }

  function EffectiveCapacity(capacity: int): nat {
    if capacity <= 0 then DEFAULT_CAPACITY else capacity
  }

  function Empty(capacity: int): Table {
    Table(EffectiveCapacity(capacity), map[], [], [])
  }

  /** Makes room for one more session and files it under key. */
  ghost function Admit(t: Table, key: string): Table
    requires t.capacity > 0
  {
    var evict := |t.order| >= t.capacity;
    var live := if evict then t.live - {t.order[0]} else t.live;
    var order := if evict then t.order[1..] else t.order;
    Table(t.capacity, live[key := |t.heap|], order + [key], t.heap + [FRESH])
  }

  ghost function Admitted(t: Table, key: string): Table
    requires t.capacity > 0
  {
    if key in t.live then t else Admit(t, key)
  }

  /** The session an operation addresses. */
  ghost function Target(t: Table, op: Op): nat {
    match op
    case Begin(key, _) => if key in t.live then t.live[key] else |t.heap|
    case Lookup(h, _) => h.sess
    case Record(h, _, _) => h.sess
    case Forget(h, _) => h.sess
  }

  ghost function Local(op: Op): SessionOp {
    match op
    case Begin(_, count) => Open(count)
    case Lookup(h, k) => Look(h.turn, k)
    case Record(h, k, text) => Keep(h.turn, k, text)
    case Forget(h, k) => Drop(k)
  }

  ghost function Step(t: Table, op: Op): Table
    requires t.capacity > 0
  {
    var u := if op.Begin? then Admitted(t, op.session) else t;
    var id := Target(t, op);
    if id < |u.heap| then u.(heap := u.heap[id := Apply(u.heap[id], Local(op))]) else u
  }

  ghost function Opened(t: Table, key: string): Handle
    requires t.capacity > 0 && Inv(t)
  {
    var id := Target(t, Begin(key, 0));
    var s := if id < |t.heap| then t.heap[id] else FRESH;
    Handle(id, s.sentCount, key !in t.live, s.turn + 1)
  }

  lemma {:induction false} BeginIs(t: Table, key: string, count: nat)
    requires Inv(t) && t.capacity > 0
    ensures var u, id := Admitted(t, key), Target(t, Begin(key, 0));
            && id < |u.heap|
            && Step(t, Begin(key, count)) == u.(heap := u.heap[id := Apply(u.heap[id], Open(count))])
            && Opened(t, key) == Handle(id, u.heap[id].sentCount, key !in t.live, u.heap[id].turn + 1)
  {
  }

  ghost function Run(t: Table, ops: seq<Op>): (r: Table)
    requires t.capacity > 0
    ensures r.capacity == t.capacity
  {
    if ops == [] then t else Step(Run(t, ops[..|ops| - 1]), ops[|ops| - 1])
  }

  // ---- every interleaving keeps the table consistent ----

  lemma {:induction false} AdmitKeepsInv(t: Table, key: string)
    requires Inv(t) && key !in t.live
    ensures Inv(Admit(t, key))
  {
    var u := Admit(t, key);
    var evict := |t.order| >= t.capacity;
    if evict {
      assert t.order == [t.order[0]] + t.order[1..];
      forall k ensures k in t.order[1..] <==> k in t.live && k != t.order[0] {
        if k in t.order[1..] {
          var i :| 0 <= i < |t.order[1..]| && t.order[1..][i] == k;
          assert t.order[i + 1] == k;
        }
      }
    }
    var rest := if evict then t.order[1..] else t.order;
    assert key !in rest;
    assert forall k :: k in u.order <==> k in rest || k == key;
  }

  lemma {:induction false} StepKeepsInv(t: Table, op: Op)
    requires Inv(t)
    ensures Inv(Step(t, op))
    ensures |Step(t, op).heap| >= |t.heap|
  {
    if op.Begin? && op.session !in t.live {
      AdmitKeepsInv(t, op.session);
    }
  }

  /** In every interleaving of operations over any handles, the order list is
      duplicate-free, lists exactly the live sessions and stays within capacity. */
  lemma {:induction false} RunKeepsInv(capacity: int, ops: seq<Op>)
    ensures Inv(Run(Empty(capacity), ops))
  {
    if ops != [] {
      RunKeepsInv(capacity, ops[..|ops| - 1]);
      StepKeepsInv(Run(Empty(capacity), ops[..|ops| - 1]), ops[|ops| - 1]);
    }
  }

  /** Eviction is first in, first out: admitting a session to a full table costs
      exactly the oldest one its place. */
  lemma {:induction false} AdmitEvictsTheOldest(t: Table, key: string, count: nat)
    requires Inv(t) && key !in t.live
    ensures var u := Step(t, Begin(key, count));
            && u.order == (if |t.order| == t.capacity then t.order[1..] else t.order) + [key]
            && (forall k :: k in t.live ==> (k in u.live <==> |t.order| < t.capacity || k != t.order[0]))
            && (forall k :: k in t.live && k in u.live ==> u.live[k] == t.live[k])
  {
    StepKeepsInv(t, Begin(key, count));
  }

  // ---- sessions do not interfere ----

  /** The operations a run addressed to session id, in order. */
  ghost function Project(t: Table, ops: seq<Op>, id: nat): seq<SessionOp>
    requires t.capacity > 0
  {
    if ops == [] then []
    else
      var before := ops[..|ops| - 1];
      var op := ops[|ops| - 1];
      Project(t, before, id) + if Target(Run(t, before), op) == id then [Local(op)] else []
  }

  /** No handle in the run names a session that was not yet open. */
  ghost predicate Causal(t: Table, ops: seq<Op>)
    requires t.capacity > 0
  {
    forall i :: 0 <= i < |ops| ==>
      ops[i].Begin? || Target(Run(t, ops[..i]), ops[i]) < |Run(t, ops[..i]).heap|
  }

  lemma {:induction false} ApplyOneMore(s: Session, ops: seq<SessionOp>, op: SessionOp)
    ensures ApplyAll(s, ops + [op]) == Apply(ApplyAll(s, ops), op)
  {
    assert (ops + [op])[..|ops|] == ops;
  }

  lemma {:induction false} CausalPrefix(t: Table, ops: seq<Op>)
    requires t.capacity > 0 && ops != [] && Causal(t, ops)
    ensures Causal(t, ops[..|ops| - 1])
    ensures var u := Run(t, ops[..|ops| - 1]); ops[|ops| - 1].Begin? || Target(u, ops[|ops| - 1]) < |u.heap|
  {
    var before := ops[..|ops| - 1];
    forall i | 0 <= i < |before|
      ensures before[i].Begin? || Target(Run(t, before[..i]), before[i]) < |Run(t, before[..i]).heap|
    {
      assert before[..i] == ops[..i];
    }
  }

  /** Session id of the table is what those operations make of a fresh one. */
  ghost predicate AsIfAlone(t: Table, id: nat, own: seq<SessionOp>) {
    if id < |t.heap| then t.heap[id] == ApplyAll(FRESH, own) else own == []
  }

  lemma {:induction false} StepAlone(t: Table, op: Op, id: nat, own: seq<SessionOp>)
    requires Inv(t) && (op.Begin? || Target(t, op) < |t.heap|) && AsIfAlone(t, id, own)
    ensures AsIfAlone(Step(t, op), id, own + if Target(t, op) == id then [Local(op)] else [])
  {
    if Target(t, op) == id {
      ApplyOneMore(FRESH, own, Local(op));
    } else {
      assert own + [] == own;
    }
  }

  /** A session ends every interleaving exactly as if its own operations had run
      alone: not the other sessions, nor their evictions, nor its own. */
  lemma {:induction false} NonInterference(capacity: int, ops: seq<Op>, id: nat)
    requires Causal(Empty(capacity), ops)
    ensures AsIfAlone(Run(Empty(capacity), ops), id, Project(Empty(capacity), ops, id))
  {
    var e := Empty(capacity);
    if ops != [] {
      var before := ops[..|ops| - 1];
      CausalPrefix(e, ops);
      NonInterference(capacity, before, id);
      RunKeepsInv(capacity, before);
      StepAlone(Run(e, before), ops[|ops| - 1], id, Project(e, before, id));
    }
  }

  // ---- what a lookup returns ----

  /** The text last recorded for k, unless it was forgotten since. */
  function LastRecorded(ops: seq<SessionOp>, k: Key): Option<Text> {
    if ops == [] then None
    else
      var op := ops[|ops| - 1];
      if op.Keep? && op.key == k then Some(op.text)
      else if op.Drop? && op.key == k then None
      else LastRecorded(ops[..|ops| - 1], k)
  }

  /** The turn of the handle that last recorded or looked up k. */
  function LastTouched(ops: seq<SessionOp>, k: Key): nat {
    if ops == [] then 0
    else
      var op := ops[|ops| - 1];
      if (op.Keep? || op.Look?) && op.key == k then op.turn
      else LastTouched(ops[..|ops| - 1], k)
  }

  lemma {:induction false} EntryIsLastRecorded(ops: seq<SessionOp>, k: Key)
    ensures var s := ApplyAll(FRESH, ops);
            k in s.blocks ==> LastRecorded(ops, k) == Some(s.blocks[k].text) && s.blocks[k].seen == LastTouched(ops, k)
  {
    if ops != [] {
      EntryIsLastRecorded(ops[..|ops| - 1], k);
    }
  }

  /** How many turns the operations opened. */
  function TurnsIn(ops: seq<SessionOp>): nat {
    if ops == [] then 0 else TurnsIn(ops[..|ops| - 1]) + (if ops[|ops| - 1].Open? then 1 else 0)
  }

  lemma {:induction false} TurnIs(ops: seq<SessionOp>)
    ensures ApplyAll(FRESH, ops).turn == TurnsIn(ops)
  {
    if ops != [] {
      TurnIs(ops[..|ops| - 1]);
    }
  }

  /** Operation i records k, and since then k was not forgotten, and no turn was opened
      more than three after k's last touch. */
  ghost predicate Lasts(ops: seq<SessionOp>, k: Key, i: nat) {
    && i < |ops| && ops[i].Keep? && ops[i].key == k
    && forall j :: i < j < |ops| ==> !EndsAt(ops, k, j)
  }

  ghost predicate EndsAt(ops: seq<SessionOp>, k: Key, j: nat)
    requires j < |ops|
  {
    ops[j] == Drop(k) || (ops[j].Open? && TurnsIn(ops[..j]) + 1 > LastTouched(ops[..j], k) + 3)
  }

  /** The session holds k exactly when some recording of it has lasted. */
  lemma {:induction false} EntryIsThereIff(ops: seq<SessionOp>, k: Key)
    ensures k in ApplyAll(FRESH, ops).blocks <==> exists i: nat :: Lasts(ops, k, i)
  {
    if ops != [] {
      var n := |ops| - 1;
      var init := ops[..n];
      EntryIsThereIff(init, k);
      EntryIsLastRecorded(init, k);
      TurnIs(init);
      forall i: nat | i < n ensures Lasts(ops, k, i) <==> Lasts(init, k, i) && !EndsAt(ops, k, n) {
        LastsNext(ops, k, i);
      }
      if ops[n].Keep? && ops[n].key == k {
        assert Lasts(ops, k, n);
      }
    }
  }

  lemma {:induction false} LastsNext(ops: seq<SessionOp>, k: Key, i: nat)
    requires i < |ops| - 1
    ensures Lasts(ops, k, i) <==> Lasts(ops[..|ops| - 1], k, i) && !EndsAt(ops, k, |ops| - 1)
  {
    var init := ops[..|ops| - 1];
    forall j: nat | j < |init| ensures EndsAt(ops, k, j) <==> EndsAt(init, k, j) {
      assert init[..j] == ops[..j];
    }
  }

  /** In any interleaving, a lookup through any handle, even one whose session
      was evicted, yields only the text last recorded for that key in that session. */
  lemma {:induction false} LookupReturnsLastRecorded(capacity: int, ops: seq<Op>, h: Handle, k: Key)
    requires Causal(Empty(capacity), ops)
    requires h.sess < |Run(Empty(capacity), ops).heap|
    requires k in Run(Empty(capacity), ops).heap[h.sess].blocks
    ensures LastRecorded(Project(Empty(capacity), ops, h.sess), k)
         == Some(Run(Empty(capacity), ops).heap[h.sess].blocks[k].text)
  {
    NonInterference(capacity, ops, h.sess);
    EntryIsLastRecorded(Project(Empty(capacity), ops, h.sess), k);
  }

  // ---- staleness ----

  /** Opening turn t removes exactly the entries last touched before turn t - 3. */
  lemma {:induction false} SweepIsExact(ops: seq<SessionOp>, count: nat, k: Key)
    requires k in ApplyAll(FRESH, ops).blocks
    ensures var s := ApplyAll(FRESH, ops);
            var u := Apply(s, Open(count));
            && u.turn == s.turn + 1
            && (k in u.blocks <==> u.turn <= LastTouched(ops, k) + STALE_TURNS)
            && (k in u.blocks ==> u.blocks[k] == s.blocks[k])
  {
    EntryIsLastRecorded(ops, k);
  }

  /** Operations of one turn that neither touch nor drop k. */
  ghost predicate Ignores(ops: seq<SessionOp>, k: Key) {
    forall i :: 0 <= i < |ops| ==> !ops[i].Open? && ops[i].key != k
  }

  lemma {:induction false} IgnoredEntryStays(s: Session, ops: seq<SessionOp>, k: Key)
    requires Ignores(ops, k)
    ensures var u := ApplyAll(s, ops);
            && u.turn == s.turn && (k in u.blocks <==> k in s.blocks)
            && (k in u.blocks ==> u.blocks[k] == s.blocks[k])
  {
    if ops != [] {
      IgnoredEntryStays(s, ops[..|ops| - 1], k);
    }
  }

  /** A whole turn: the opening, then the turn's own operations. */
  ghost function Turn(s: Session, count: nat, ops: seq<SessionOp>): Session {
    ApplyAll(Apply(s, Open(count)), ops)
  }

  ghost function Turns(s: Session, turns: seq<(nat, seq<SessionOp>)>): Session {
    if turns == [] then s
    else
      var last := turns[|turns| - 1];
      Turn(Turns(s, turns[..|turns| - 1]), last.0, last.1)
  }

  /** An entry last touched on turn r and never again survives to turn r + 3 and
      is gone from turn r + 4 on. */
  lemma {:induction false} UntouchedEntryExpires(s: Session, turns: seq<(nat, seq<SessionOp>)>, k: Key)
    requires k in s.blocks && s.blocks[k].seen == s.turn
    requires forall i :: 0 <= i < |turns| ==> Ignores(turns[i].1, k)
    ensures var u := Turns(s, turns);
            && u.turn == s.turn + |turns|
            && (k in u.blocks <==> |turns| <= STALE_TURNS)
            && (k in u.blocks ==> u.blocks[k] == s.blocks[k])
  {
    if turns != [] {
      var before := turns[..|turns| - 1];
      UntouchedEntryExpires(s, before, k);
      var last := turns[|turns| - 1];
      IgnoredEntryStays(Apply(Turns(s, before), Open(last.0)), last.1, k);
    }
  }

  /** Sequential use: turn t's operations go through turn t's handle. A turn is
      attentive to k when it looks k up and neither records nor drops it. */
  ghost predicate Attentive(ops: seq<SessionOp>, turn: nat, k: Key) {
    && Look(turn, k) in ops
    && (forall i :: 0 <= i < |ops| ==> !ops[i].Open? && (ops[i].key == k ==> ops[i] == Look(turn, k)))
  }

  lemma {:induction false} AttentiveTurnRefreshes(s: Session, ops: seq<SessionOp>, k: Key)
    requires k in s.blocks
    requires forall i :: 0 <= i < |ops| ==> !ops[i].Open? && (ops[i].key == k ==> ops[i] == Look(s.turn, k))
    ensures var u := ApplyAll(s, ops);
            && u.turn == s.turn && k in u.blocks && u.blocks[k].text == s.blocks[k].text
            && u.blocks[k].seen == if Look(s.turn, k) in ops then s.turn else s.blocks[k].seen
  {
    if ops != [] {
      var before := ops[..|ops| - 1];
      AttentiveTurnRefreshes(s, before, k);
      assert ops == before + [ops[|ops| - 1]];
    }
  }

  /** An entry looked up every turn survives runs of any length, text unchanged. */
  lemma {:induction false} LiveEntrySurvives(s: Session, turns: seq<(nat, seq<SessionOp>)>, k: Key)
    requires k in s.blocks && s.turn <= s.blocks[k].seen + STALE_TURNS - 1
    requires forall i :: 0 <= i < |turns| ==> Attentive(turns[i].1, s.turn + i + 1, k)
    ensures var u := Turns(s, turns);
            && u.turn == s.turn + |turns| && k in u.blocks && u.blocks[k].text == s.blocks[k].text
            && (turns != [] ==> u.blocks[k].seen == u.turn)
  {
    if turns != [] {
      var before := turns[..|turns| - 1];
      LiveEntrySurvives(s, before, k);
      var last := turns[|turns| - 1];
      var current := Apply(Turns(s, before), Open(last.0));
      assert Attentive(last.1, s.turn + |before| + 1, k);
      AttentiveTurnRefreshes(current, last.1, k);
    }
  }

  /** The clock is the handle's, not the session's: a straggler's handle moves an
      entry's clock backwards, so an entry looked up on the current turn can still
      be swept by the next one. */
  lemma {:induction false} StragglerAgesAnEntry()
    ensures var s := Session(8, 0, map["k" := Entry("c", 8)]);
            var u := ApplyAll(s, [Look(8, "k"), Look(4, "k")]);
            "k" in u.blocks && "k" !in Apply(u, Open(0)).blocks
  {
    var s := Session(8, 0, map["k" := Entry("c", 8)]);
    var one := [Look(8, "k")];
    assert [Look(8, "k"), Look(4, "k")][..1] == one;
    assert one[..0] == [];
    assert ApplyAll(s, one) == Apply(s, Look(8, "k"));
  }

  // ---- the classes ----

  class ReplaySession {
    var turn: nat
    var sentCount: nat
    var blocks: map<Key, Entry>

    ghost function Value(): Session reads this { Session(turn, sentCount, blocks) }

    constructor ()
      ensures Value() == FRESH
    {
      turn, sentCount, blocks := 0, 0, map[];
    }

    method Sweep()
      modifies this`blocks
      ensures Value() == Swept(old(Value()))
    {
      var cutoff := turn - STALE_TURNS;
      if cutoff <= 0 {
        assert Swept(Value()).blocks == blocks;
        return;
      }
      var todo := blocks.Keys;
      while todo != {}
        modifies this`blocks
        invariant todo <= old(blocks).Keys
        invariant forall k :: k in blocks <==> k in old(blocks) && (k in todo || old(blocks)[k].seen >= cutoff)
        invariant forall k :: k in blocks ==> blocks[k] == old(blocks)[k]
      {
        var k :| k in todo;
        if blocks[k].seen < cutoff {
          blocks := blocks - {k};
        }
        todo := todo - {k};
      }
      assert blocks == Swept(old(Value())).blocks;
    }
  }

  class ReplayState {
    const capacity: nat
    var sessions: map<string, ReplaySession>
    var order: seq<string>
    ghost var heap: seq<ReplaySession>
    ghost var ids: map<string, nat>

    ghost predicate Valid()
      reads this, heap
    {
      && Inv(Abs())
      && Filed()
    }

    ghost function Abs(): Table
      reads this, heap
    {
      Table(capacity, ids, order, seq(|heap|, i requires 0 <= i < |heap| reads this, heap => heap[i].Value()))
    }

    constructor (cap: int)
      ensures Valid() && Abs() == Empty(cap)
      ensures heap == []
    {
      capacity := if cap <= 0 then DEFAULT_CAPACITY else cap;
      sessions, order, heap, ids := map[], [], [], map[];
    }

    method Len() returns (n: nat)
      requires Valid()
      ensures n == |Abs().live| == |Abs().order|
    {
      UniqueCount(order, ids.Keys);
      assert |ids.Keys| == |ids| && |sessions.Keys| == |sessions|;
      n := |sessions|;
    }

    /** Files a new session, evicting the oldest one from a full table. */
    method File(sessionKey: string) returns (sess: ReplaySession)
      requires Valid() && sessionKey !in sessions
      modifies this
      ensures Valid() && Abs() == Admit(old(Abs()), sessionKey)
      ensures fresh(sess) && heap == old(heap) + [sess]
    {
      ghost var before := Abs();
      if |order| >= capacity {
        sessions := sessions - {order[0]};
        ids := ids - {order[0]};
        order := order[1..];
      }
      sess := Append(sessionKey);
      AdmitStep(before, sessionKey);
    }

    method Append(sessionKey: string) returns (sess: ReplaySession)
      requires Filed() && sessionKey !in sessions
      modifies this
      ensures Filed() && fresh(sess) && sess.Value() == FRESH
      ensures heap == old(heap) + [sess] && ids == old(ids)[sessionKey := |old(heap)|]
      ensures order == old(order) + [sessionKey]
    {
      order := order + [sessionKey];
      sess := new ReplaySession();
      sessions := sessions[sessionKey := sess];
      ids := ids[sessionKey := |heap|];
      heap := heap + [sess];
    }

    lemma {:induction false} AdmitStep(before: Table, key: string)
      requires Inv(before) && Filed() && key !in before.live
      requires before.capacity == capacity && |heap| == |before.heap| + 1
      requires ids == Admit(before, key).live && order == Admit(before, key).order
      requires forall i :: 0 <= i < |before.heap| ==> heap[i].Value() == before.heap[i]
      requires heap[|before.heap|].Value() == FRESH
      ensures Valid() && Abs() == Admit(before, key)
    {
      AdmitKeepsInv(before, key);
      assert Abs().heap == Admit(before, key).heap;
    }

    /** The session under the key, filed now if it is new. */
    method FindOrFile(sessionKey: string) returns (sess: ReplaySession, seen: bool, ghost id: nat)
      requires Valid()
      modifies this
      ensures Valid() && Abs() == Admitted(old(Abs()), sessionKey)
      ensures seen == (sessionKey in old(sessions)) && id == Target(old(Abs()), Op.Begin(sessionKey, 0))
      ensures id < |heap| && heap[id] == sess
      ensures if seen then sess == old(sessions)[sessionKey] && sess in old(heap) else fresh(sess)
    {
      ghost var before := Abs();
      id := Target(before, Op.Begin(sessionKey, 0));
      seen := sessionKey in sessions;
      if !seen {
        sess := File(sessionKey);
      } else {
        sess := sessions[sessionKey];
      }
    }

    method Begin(sessionKey: string, count: nat) returns (h: SessionReplay)
      requires Valid()
      modifies this, if sessionKey in sessions then {sessions[sessionKey]} else {}
      ensures Valid() && Abs() == Step(old(Abs()), Op.Begin(sessionKey, count))
      ensures fresh(h) && h.parent == this && h.Valid() && h.AsHandle() == Opened(old(Abs()), sessionKey)
      ensures fresh(h.sess) || h.sess in old(heap)
    {
      var sess, seen, floor, id := Tick(sessionKey, count);
      h := new SessionReplay(this, sess, floor, !seen, sess.turn, id);
    }

    /** Finds or files the session, and advances it. */
    method Tick(sessionKey: string, count: nat) returns (sess: ReplaySession, seen: bool, floor: nat, ghost id: nat)
      requires Valid()
      modifies this, if sessionKey in sessions then {sessions[sessionKey]} else {}
      ensures Valid() && Abs() == Step(old(Abs()), Op.Begin(sessionKey, count))
      ensures id < |heap| && heap[id] == sess && (fresh(sess) || sess in old(heap))
      ensures Handle(id, floor, !seen, sess.turn) == Opened(old(Abs()), sessionKey)
    {
      ghost var before := Abs();
      sess, seen, id := FindOrFile(sessionKey);
      BeginIs(before, sessionKey, count);
      assert sess.Value() == Abs().heap[id];
      floor := Advance(sess, count, id);
    }

    /** Ticks the session's clock, sweeps it and moves its floor. */
    method Advance(sess: ReplaySession, count: nat, ghost id: nat) returns (floor: nat)
      requires Valid() && id < |heap| && heap[id] == sess
      modifies sess
      ensures Valid() && floor == old(sess.sentCount) && sess.turn == old(sess.turn) + 1
      ensures Abs() == old(Abs()).(heap := old(Abs()).heap[id := Apply(old(Abs()).heap[id], Open(count))])
    {
      ghost var before := Abs();
      sess.turn := sess.turn + 1;
      sess.Sweep();
      floor := sess.sentCount;
      sess.sentCount := count;
      SessionStep(before, id, Open(count));
    }

    /** Everything Valid says that no session's own fields can break. */
    ghost predicate Filed()
      reads this
    {
      && Unique(heap)
      && ids.Keys == sessions.Keys
      && (forall k :: k in ids ==> ids[k] < |heap| && heap[ids[k]] == sessions[k])
    }

    /** Changing one session's value is one step on the heap. */
    lemma {:induction false} SessionStep(before: Table, id: nat, op: SessionOp)
      requires Inv(before) && Filed() && id < |heap| == |before.heap|
      requires before.capacity == capacity && before.live == ids && before.order == order
      requires forall i :: 0 <= i < |heap| && i != id ==> heap[i].Value() == before.heap[i]
      requires heap[id].Value() == Apply(before.heap[id], op)
      ensures Valid()
      ensures Abs() == before.(heap := before.heap[id := Apply(before.heap[id], op)])
    {
      assert Abs().heap == before.heap[id := Apply(before.heap[id], op)];
    }
  }

  /** One turn's view of one session; it stays usable after the session is evicted. */
  class SessionReplay {
    const parent: ReplayState
    const sess: ReplaySession
    const floor: nat
    const first: bool
    const turn: nat
    ghost const id: nat

    ghost predicate Valid()
      reads parent, parent.heap
    {
      parent.Valid() && id < |parent.heap| && parent.heap[id] == sess
    }

    ghost function AsHandle(): Handle { Handle(id, floor, first, turn) }

    constructor (p: ReplayState, s: ReplaySession, f: nat, fst: bool, t: nat, ghost i: nat)
      ensures parent == p && sess == s && AsHandle() == Handle(i, f, fst, t)
    {
      parent, sess, floor, first, turn, id := p, s, f, fst, t, i;
    }

    method Lookup(originalHash: Key) returns (r: Option<Text>)
      requires Valid()
      modifies sess`blocks
      ensures Valid() && parent.Abs() == Step(old(parent.Abs()), Op.Lookup(AsHandle(), originalHash))
      ensures sess.Value() == Apply(old(sess.Value()), Look(turn, originalHash))
      ensures r == if originalHash in old(sess.blocks) then Some(old(sess.blocks)[originalHash].text) else None
    {
      ghost var before := parent.Abs();
      if originalHash !in sess.blocks {
        parent.SessionStep(before, id, Look(turn, originalHash));
        return None;
      }
      var e := sess.blocks[originalHash];
      sess.blocks := sess.blocks[originalHash := Entry(e.text, turn)];
      parent.SessionStep(before, id, Look(turn, originalHash));
      return Some(e.text);
    }

    method Record(originalHash: Key, compressed: Text)
      requires Valid()
      modifies sess`blocks
      ensures Valid() && parent.Abs() == Step(old(parent.Abs()), Op.Record(AsHandle(), originalHash, compressed))
      ensures sess.Value() == Apply(old(sess.Value()), Keep(turn, originalHash, compressed))
    {
      ghost var before := parent.Abs();
      sess.blocks := sess.blocks[originalHash := Entry(compressed, turn)];
      parent.SessionStep(before, id, Keep(turn, originalHash, compressed));
    }

    method Forget(originalHash: Key)
      requires Valid()
      modifies sess`blocks
      ensures Valid() && parent.Abs() == Step(old(parent.Abs()), Op.Forget(AsHandle(), originalHash))
      ensures sess.Value() == Apply(old(sess.Value()), Drop(originalHash))
    {
      ghost var before := parent.Abs();
      sess.blocks := sess.blocks - {originalHash};
      parent.SessionStep(before, id, Drop(originalHash));
    }

    method EntryCount() returns (n: nat)
      requires Valid()
      ensures n == |sess.Value().blocks|
    {
      n := |sess.blocks|;
    }
  }
}
