/** Many sessions through one proxy: what one session's run promises holds of its requests. */
module ProxyRuns {

  import opened Common
  import opened Splice
  import opened Replay
  import opened LiveZone
  import opened ReplayRuns
  import opened DispatchSafety
  import opened StableRuns
  import opened ProxyTurn
  import opened Interleaving

  type TurnAsked = Asked<string, TurnInput>

  ghost function Serve(fx: Fixed, t: Table, r: TurnAsked): (u: Table)
    requires Inv(t)
    ensures Inv(u) && TurnLeaves(t, u, r.key, TurnAcc(fx, SessionFor(t, r.key), r.input).session)
  {
    var now := TurnAcc(fx, SessionFor(t, r.key), r.input).session;
    TurnLeft(t, r.key, |r.input.chat.messages|, now);
    AfterTurn(t, r.key, |r.input.chat.messages|, now)
  }

  /** Request r takes table t to table u. */
  ghost predicate Follows(fx: Fixed, t: Table, r: TurnAsked, u: Table) { Inv(t) && Inv(u) && u == Serve(fx, t, r) }

  /** The tables between the requests, whichever sessions they name. */
  ghost predicate IsHistory(fx: Fixed, capacity: int, rs: seq<TurnAsked>, ts: seq<Table>) {
    && |ts| == |rs| + 1 && ts[0] == Empty(capacity)
    && forall i :: 0 <= i < |rs| ==> Follows(fx, ts[i], rs[i], ts[i + 1])
  }

  ghost function History(fx: Fixed, capacity: int, rs: seq<TurnAsked>): (ts: seq<Table>)
    ensures |ts| == |rs| + 1 && ts[0] == Empty(capacity) && Inv(ts[|rs|])
  {
    if rs == [] then [Empty(capacity)]
    else
      var ts := History(fx, capacity, rs[..|rs| - 1]);
      ts + [Serve(fx, ts[|rs| - 1], rs[|rs| - 1])]
  }

  lemma {:induction false} ServedFollows(fx: Fixed, t: Table, r: TurnAsked, u: Table)
    requires Inv(t) && u == Serve(fx, t, r)
    ensures Follows(fx, t, r, u)
  {
  }

  lemma {:induction false} HistoryNext(fx: Fixed, capacity: int, rs: seq<TurnAsked>)
    requires rs != []
    ensures var ts, before := History(fx, capacity, rs), History(fx, capacity, rs[..|rs| - 1]);
            && (forall i :: 0 <= i < |rs| ==> ts[i] == before[i])
            && Follows(fx, ts[|rs| - 1], rs[|rs| - 1], ts[|rs|])
  {
    var ts, before := History(fx, capacity, rs), History(fx, capacity, rs[..|rs| - 1]);
    ServedFollows(fx, before[|rs| - 1], rs[|rs| - 1], ts[|rs|]);
  }

  lemma {:induction false} HistoryFollows(fx: Fixed, capacity: int, rs: seq<TurnAsked>, i: nat)
    requires i < |rs|
    ensures var ts := History(fx, capacity, rs); Follows(fx, ts[i], rs[i], ts[i + 1])
  {
    HistoryNext(fx, capacity, rs);
    if i < |rs| - 1 {
      HistoryFollows(fx, capacity, rs[..|rs| - 1], i);
    }
  }

  /** Every list of requests has its tables. */
  lemma {:induction false} HistoryIs(fx: Fixed, capacity: int, rs: seq<TurnAsked>)
    ensures IsHistory(fx, capacity, rs, History(fx, capacity, rs))
  {
    forall i | 0 <= i < |rs|
      ensures Follows(fx, History(fx, capacity, rs)[i], rs[i], History(fx, capacity, rs)[i + 1])
    {
      HistoryFollows(fx, capacity, rs, i);
    }
  }

  // ---- each session on its own ----

  /** What a turn makes of a session. */
  ghost function Turned(fx: Fixed): (Session, TurnInput) -> Session { (s, t) => TurnAcc(fx, s, t).session }

  /** The live sessions by key. */
  ghost function LiveSessions(t: Table): map<string, Session>
    requires Inv(t)
  {
    map k | k in t.live :: t.heap[t.live[k]]
  }

  ghost function States(ts: seq<Table>): (live: seq<map<string, Session>>)
    requires forall i :: 0 <= i < |ts| ==> Inv(ts[i])
    ensures |live| == |ts|
  {
    seq(|ts|, i requires 0 <= i < |ts| => LiveSessions(ts[i]))
  }

  lemma {:induction false} AfterIsFold(fx: Fixed, turns: seq<TurnInput>)
    ensures After(fx, FRESH, turns) == Fold(Turned(fx), FRESH, turns)
  {
    if turns != [] {
      AfterIsFold(fx, turns[..|turns| - 1]);
    }
  }

  lemma {:induction false} TablesAreSound(fx: Fixed, capacity: int, rs: seq<TurnAsked>, ts: seq<Table>)
    requires IsHistory(fx, capacity, rs, ts)
    ensures forall i :: 0 <= i < |ts| ==> Inv(ts[i])
  {
    forall i | 0 <= i < |ts| ensures Inv(ts[i]) {
      if i < |rs| {
        assert Follows(fx, ts[i], rs[i], ts[i + 1]);
      } else if i > 0 {
        assert Follows(fx, ts[i - 1], rs[i - 1], ts[i - 1 + 1]);
      }
    }
  }

  lemma {:induction false} ServeIsTurn(fx: Fixed, t: Table, r: TurnAsked, u: Table)
    requires Follows(fx, t, r, u)
    ensures Serves(Turned(fx), FRESH, LiveSessions(t), r, LiveSessions(u))
  {
  }

  /** The tables of the proxy are a run of interleaved sessions. */
  lemma {:induction false} HistoryIsRun(fx: Fixed, capacity: int, rs: seq<TurnAsked>, ts: seq<Table>)
    requires IsHistory(fx, capacity, rs, ts)
    ensures (forall i :: 0 <= i < |ts| ==> Inv(ts[i])) && IsRun(Turned(fx), FRESH, rs, States(ts))
  {
    TablesAreSound(fx, capacity, rs, ts);
    forall i | 0 <= i < |rs| ensures Serves(Turned(fx), FRESH, States(ts)[i], rs[i], States(ts)[i + 1]) {
      assert Follows(fx, ts[i], rs[i], ts[i + 1]);
      ServeIsTurn(fx, ts[i], rs[i], ts[i + 1]);
    }
  }

  /** After any requests, a session in the table is what its own turns since it was
      admitted make of a fresh one. */
  lemma {:induction false} OnlyOwnTurnsCount(fx: Fixed, capacity: int, rs: seq<TurnAsked>, ts: seq<Table>,
                                             key: string, n: nat)
    requires IsHistory(fx, capacity, rs, ts) && n <= |rs| && key in ts[n].live
    ensures forall i :: 0 <= i < |ts| ==> Inv(ts[i])
    ensures SessionFor(ts[n], key) == After(fx, FRESH, OwnTurns(States(ts), rs, key, n))
  {
    HistoryIsRun(fx, capacity, rs, ts);
    SessionsRunAlone(Turned(fx), FRESH, rs, States(ts), key, n);
    AfterIsFold(fx, OwnTurns(States(ts), rs, key, n));
  }

  /** bb opens with all of ba up to its tail. */
  ghost predicate Continues(tail: Bytes, ba: Bytes, bb: Bytes) { |tail| <= |ba| && ba[..|ba| - |tail|] <= bb }

  /** Two turns of one run, from whatever sessions they are known to start. */
  lemma {:induction false} TurnsContinue(fx: Fixed, originals: set<Original>, turns: seq<TurnInput>, n: nat, m: nat,
                                         s: Session, t: TurnInput, s': Session, t': TurnInput)
    requires SoundRun(fx, originals, FRESH, turns) && CopiesAgreeThroughout(fx, FRESH, turns) && n <= m
    requires IsTurn(Turned(fx), FRESH, turns, n, s, t) && IsTurn(Turned(fx), FRESH, turns, m, s', t')
    requires t.chat.head == t'.chat.head
    ensures Continues(t.chat.tail, TurnBody(fx, s, t), TurnBody(fx, s', t'))
  {
    AfterIsFold(fx, turns[..n]);
    AfterIsFold(fx, turns[..m]);
    RunBodiesSharePrefix(fx, originals, FRESH, turns, n, m);
  }

  /** The two requests are two turns of their session's run. */
  lemma {:induction false} TheirTurns(fx: Fixed, capacity: int, rs: seq<TurnAsked>, ts: seq<Table>, key: string,
                                      a: nat, b: nat)
    returns (n: nat, m: nat)
    requires IsHistory(fx, capacity, rs, ts) && forall i :: 0 <= i < |ts| ==> Inv(ts[i])
    requires a <= b < |rs| && rs[a].key == key && rs[b].key == key && Stays(States(ts), key, a, b)
    ensures var turns := OwnTurns(States(ts), rs, key, b + 1);
            && n <= m && IsTurn(Turned(fx), FRESH, turns, n, SessionFor(ts[a], key), rs[a].input)
            && IsTurn(Turned(fx), FRESH, turns, m, SessionFor(ts[b], key), rs[b].input)
  {
    HistoryIsRun(fx, capacity, rs, ts);
    n, m := RequestsAreTurns(Turned(fx), FRESH, rs, States(ts), key, a, b);
  }

  /** The cached prefix, of the proxy: while a session stays in the table and meets what a
      run must meet, everything one of its requests forwarded up to the end of its
      messages opens every later one's body, whatever other sessions do in between. */
  lemma {:induction false} RequestsSharePrefix(fx: Fixed, originals: set<Original>, capacity: int, rs: seq<TurnAsked>,
                                               ts: seq<Table>, key: string, a: nat, b: nat)
    requires IsHistory(fx, capacity, rs, ts) && forall i :: 0 <= i < |ts| ==> Inv(ts[i])
    requires a <= b < |rs| && rs[a].key == key && rs[b].key == key && Stays(States(ts), key, a, b)
    requires var turns := OwnTurns(States(ts), rs, key, b + 1);
             SoundRun(fx, originals, FRESH, turns) && CopiesAgreeThroughout(fx, FRESH, turns)
    requires rs[a].input.chat.head == rs[b].input.chat.head
    ensures Continues(rs[a].input.chat.tail, TurnBody(fx, SessionFor(ts[a], key), rs[a].input),
                      TurnBody(fx, SessionFor(ts[b], key), rs[b].input))
  {
    var n, m := TheirTurns(fx, capacity, rs, ts, key, a, b);
    TurnsContinue(fx, originals, OwnTurns(States(ts), rs, key, b + 1), n, m, SessionFor(ts[a], key), rs[a].input,
                  SessionFor(ts[b], key), rs[b].input);
  }

  // ---- a table that is large enough ----

  lemma {:induction false} OrderFills(t: Table)
    requires Inv(t)
    ensures |t.order| == |t.live.Keys|
  {
    UniqueCount(t.order, t.live.Keys);
  }

  lemma {:induction false} ServeAdmits(fx: Fixed, t: Table, r: TurnAsked, u: Table)
    requires Follows(fx, t, r, u) && (r.key in t.live || |t.order| < t.capacity)
    ensures u.live.Keys == t.live.Keys + {r.key} && u.capacity == t.capacity
  {
    var count := |r.input.chat.messages|;
    BeginIs(t, r.key, count);
    if r.key !in t.live {
      AdmitEvictsTheOldest(t, r.key, count);
    }
  }

  /** No session is evicted while the sessions named fit the capacity. */
  lemma {:induction false} NoneIsEvicted(fx: Fixed, capacity: int, rs: seq<TurnAsked>, ts: seq<Table>, n: nat)
    requires IsHistory(fx, capacity, rs, ts) && n <= |rs| && |KeysIn(rs, n)| <= EffectiveCapacity(capacity)
    ensures ts[n].live.Keys == KeysIn(rs, n) && ts[n].capacity == EffectiveCapacity(capacity)
  {
    if n > 0 {
      KeysGrow(rs, n);
      NoneIsEvicted(fx, capacity, rs, ts, n - 1);
      assert Follows(fx, ts[n - 1], rs[n - 1], ts[n - 1 + 1]);
      OrderFills(ts[n - 1]);
      ServeAdmits(fx, ts[n - 1], rs[n - 1], ts[n]);
    }
  }

  /** Then every session's run is all of its requests. */
  lemma {:induction false} OwnTurnsAreAll(fx: Fixed, capacity: int, rs: seq<TurnAsked>, ts: seq<Table>, key: string,
                                          n: nat)
    requires IsHistory(fx, capacity, rs, ts) && n <= |rs| && |KeysIn(rs, n)| <= EffectiveCapacity(capacity)
    ensures forall i :: 0 <= i < |ts| ==> Inv(ts[i])
    ensures OwnTurns(States(ts), rs, key, n) == TurnsOf(rs, key, n)
  {
    TablesAreSound(fx, capacity, rs, ts);
    forall i: nat | i < n ensures key in States(ts)[i] <==> key in KeysIn(rs, i) {
      FewerNamed(rs, i, n);
      NoneIsEvicted(fx, capacity, rs, ts, i);
    }
    NeverStartsOver(States(ts), rs, key, n);
  }
}
