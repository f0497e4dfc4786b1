/** The in-memory CCR store: internal/ccr/backends/inmemory.go. */
module InMemoryStore {

  // Its specification is one list of items in insertion order. Time is an argument
  // of every operation; a deadline of None never passes.

  import opened Common

  datatype Item = Item(hash: string, payload: string, expires: Option<int>)

  datatype Op = Put(hash: string, payload: string) | Get(hash: string)

  /** An operation and the time it happens at. */
  datatype Timed = Timed(op: Op, now: int)

  function Deadline(ttl: int, now: int): Option<int> { if ttl <= 0 then None else Some(now + ttl) }

  predicate Expired(e: Option<int>, now: int) { e.Some? && now > e.value }

  ghost function IndexOf(s: seq<Item>, hash: string): (i: nat)
    ensures i <= |s| && (i < |s| ==> s[i].hash == hash)
    ensures forall j :: 0 <= j < i ==> s[j].hash != hash
  {
    if s == [] || s[0].hash == hash then 0 else 1 + IndexOf(s[1..], hash)
  }

  ghost predicate Has(s: seq<Item>, hash: string) { IndexOf(s, hash) < |s| }

  ghost predicate Distinct(s: seq<Item>) { forall i, j :: 0 <= i < j < |s| ==> s[i].hash != s[j].hash }

  /** The newest items that fit. */
  ghost function Newest(s: seq<Item>, cap: nat): seq<Item> { if |s| <= cap then s else s[|s| - cap..] }

  ghost function Removed(s: seq<Item>, i: nat): seq<Item>
    requires i < |s|
  {
    s[..i] + s[i + 1..]
  }

  ghost function Apply(cap: nat, ttl: int, s: seq<Item>, t: Timed): seq<Item> {
    var i := IndexOf(s, t.op.hash);
    match t.op
    case Put(h, p) =>
      var item := Item(h, p, Deadline(ttl, t.now));
      if i < |s| then s[i := item] else Newest(s + [item], cap)
    case Get(h) =>
      if i < |s| && Expired(s[i].expires, t.now) then Removed(s, i) else s
  }

  ghost function Found(s: seq<Item>, h: string, now: int): Option<string> {
    var i := IndexOf(s, h);
    if i < |s| && !Expired(s[i].expires, now) then Some(s[i].payload) else None
  }

  ghost function Run(cap: nat, ttl: int, s: seq<Item>, ops: seq<Timed>): seq<Item> {
    if ops == [] then s else Apply(cap, ttl, Run(cap, ttl, s, ops[..|ops| - 1]), ops[|ops| - 1])
  }

  lemma {:induction false} ApplyKeepsShape(cap: nat, ttl: int, s: seq<Item>, t: Timed)
    requires Distinct(s) && |s| <= cap
    ensures Distinct(Apply(cap, ttl, s, t)) && |Apply(cap, ttl, s, t)| <= cap
  {
  }

  /** Updating a key leaves every item at its place; it is not moved to the back. */
  lemma {:induction false} RePutStaysInPlace(cap: nat, ttl: int, s: seq<Item>, h: string, p: string, now: int)
    requires Distinct(s) && |s| <= cap && Has(s, h)
    ensures var u := Apply(cap, ttl, s, Timed(Put(h, p), now));
            && |u| == |s| && (forall j :: 0 <= j < |s| ==> u[j].hash == s[j].hash)
            && (forall j :: 0 <= j < |s| && s[j].hash != h ==> u[j] == s[j])
            && Found(u, h, now) == Some(p)
  {
    var u := Apply(cap, ttl, s, Timed(Put(h, p), now));
    var i := IndexOf(s, h);
    forall j | 0 <= j < i ensures u[j].hash != h {
      assert u[j] == s[j];
    }
  }

  // ---- deadlines ----

  /** A text put at some time is found up to ttl later and not after, and with no ttl
      it is found for ever. */
  lemma {:induction false} FoundUntilDeadline(cap: nat, ttl: int, s: seq<Item>, h: string, p: string, at: int, now: int)
    requires Distinct(s) && |s| <= cap && cap >= 1
    ensures Found(Apply(cap, ttl, s, Timed(Put(h, p), at)), h, now)
         == if ttl > 0 && now > at + ttl then None else Some(p)
  {
    var u := Apply(cap, ttl, s, Timed(Put(h, p), at));
    var i := IndexOf(s, h);
    ApplyKeepsShape(cap, ttl, s, Timed(Put(h, p), at));
    IndexIs(u, if i < |s| then i else |u| - 1);
  }

  /** A lookup past the deadline takes the item out, with all others as they were; any
      other lookup changes nothing. */
  lemma {:induction false} LateGetDrops(cap: nat, ttl: int, s: seq<Item>, h: string, now: int)
    requires Distinct(s)
    ensures var u, i := Apply(cap, ttl, s, Timed(Get(h), now)), IndexOf(s, h);
            if i < |s| && s[i].expires.Some? && now > s[i].expires.value
            then u == s[..i] + s[i + 1..] && !Has(u, h) && Found(s, h, now) == None
            else u == s && (i < |s| <==> Found(s, h, now).Some?)
  {
    var i := IndexOf(s, h);
    if i < |s| {
      forall j | 0 <= j < |Removed(s, i)| ensures Removed(s, i)[j].hash != h {
        assert Removed(s, i)[j] == s[if j < i then j else j + 1];
      }
    }
  }

  // ---- survival ----

  /** How many of the operations insert a key the store does not hold. */
  ghost function FreshPuts(cap: nat, ttl: int, s: seq<Item>, ops: seq<Timed>): nat {
    if ops == [] then 0
    else
      var init := ops[..|ops| - 1];
      var t := ops[|ops| - 1];
      FreshPuts(cap, ttl, s, init) + if t.op.Put? && !Has(Run(cap, ttl, s, init), t.op.hash) then 1 else 0
  }

  /** The item the key has after the operations, if only its own puts matter. */
  ghost function LastPut(ttl: int, item: Item, ops: seq<Timed>): Item {
    if ops == [] then item
    else
      var t := ops[|ops| - 1];
      if t.op.Put? && t.op.hash == item.hash then Item(item.hash, t.op.payload, Deadline(ttl, t.now))
      else LastPut(ttl, item, ops[..|ops| - 1])
  }

  /** The key is never looked up past the deadline it has by then. */
  ghost predicate NeverLate(ttl: int, item: Item, ops: seq<Timed>) {
    forall i :: 0 <= i < |ops| && ops[i].op == Get(item.hash) ==>
      !Expired(LastPut(ttl, item, ops[..i]).expires, ops[i].now)
  }

  lemma {:induction false} IndexIs(s: seq<Item>, i: nat)
    requires Distinct(s) && i < |s|
    ensures IndexOf(s, s[i].hash) == i
  {
    var j := IndexOf(s, s[i].hash);
    assert j <= i && s[j].hash == s[i].hash;
  }

  lemma {:induction false} LastPutOne(ttl: int, item: Item, t: Timed)
    ensures LastPut(ttl, item, [t])
         == if t.op.Put? && t.op.hash == item.hash then Item(item.hash, t.op.payload, Deadline(ttl, t.now)) else item
  {
    assert [t][..0] == [];
    assert LastPut(ttl, item, []) == item;
  }

  /** One operation moves the key's item forward by at most one place. */
  lemma {:induction false} OneStepSurvival(cap: nat, ttl: int, s: seq<Item>, i: nat, t: Timed)
    requires Distinct(s) && |s| <= cap && i < |s|
    requires t.op == Get(s[i].hash) ==> !Expired(s[i].expires, t.now)
    requires t.op.Put? && !Has(s, t.op.hash) ==> |s| - i < cap
    ensures var u := Apply(cap, ttl, s, t);
            exists j :: 0 <= j < |u| && u[j] == LastPut(ttl, s[i], [t])
              && |u| - j <= |s| - i + if t.op.Put? && !Has(s, t.op.hash) then 1 else 0
  {
    var u := Apply(cap, ttl, s, t);
    var k := IndexOf(s, t.op.hash);
    IndexIs(s, i);
    LastPutOne(ttl, s[i], t);
    var item := LastPut(ttl, s[i], [t]);
    if t.op.Put? {
      if k < |s| {
        assert u[i] == item;
      } else {
        var drop := if |s| + 1 <= cap then 0 else |s| + 1 - cap;
        assert u[i - drop] == item;
      }
    } else if k < |s| && Expired(s[k].expires, t.now) {
      var j := if k < i then i - 1 else i;
      assert u[j] == item;
    } else {
      assert u[i] == item;
    }
  }

  /** An item at the back survives any run with fewer fresh insertions than the
      store has room for, unless it is looked up after its deadline. */
  lemma {:induction false} SurvivesFreshPuts(cap: nat, ttl: int, s: seq<Item>, i: nat, ops: seq<Timed>)
    requires Distinct(s) && |s| <= cap && i < |s|
    requires NeverLate(ttl, s[i], ops)
    requires |s| - i + FreshPuts(cap, ttl, s, ops) <= cap
    ensures var u := Run(cap, ttl, s, ops);
            && Distinct(u) && |u| <= cap
            && exists j :: 0 <= j < |u| && u[j] == LastPut(ttl, s[i], ops)
                 && |u| - j <= |s| - i + FreshPuts(cap, ttl, s, ops)
  {
    if ops == [] {
      assert s[i] == LastPut(ttl, s[i], ops);
    } else {
      var init := ops[..|ops| - 1];
      var t := ops[|ops| - 1];
      assert forall j :: 0 <= j < |init| ==> init[..j] == ops[..j];
      SurvivesFreshPuts(cap, ttl, s, i, init);
      var mid := Run(cap, ttl, s, init);
      var j :| 0 <= j < |mid| && mid[j] == LastPut(ttl, s[i], init)
               && |mid| - j <= |s| - i + FreshPuts(cap, ttl, s, init);
      LastPutKeepsHash(ttl, s[i], init);
      OneStepSurvival(cap, ttl, mid, j, t);
      ApplyKeepsShape(cap, ttl, mid, t);
      LastPutOne(ttl, mid[j], t);
      assert LastPut(ttl, mid[j], [t]) == LastPut(ttl, s[i], ops);
    }
  }

  lemma {:induction false} LastPutKeepsHash(ttl: int, item: Item, ops: seq<Timed>)
    ensures LastPut(ttl, item, ops).hash == item.hash
  {
    if ops != [] {
      LastPutKeepsHash(ttl, item, ops[..|ops| - 1]);
    }
  }

  /** A freshly stored text is still found after fewer fresh insertions than the
      capacity, at any time its latest deadline has not passed. */
  lemma {:induction false} StoredIsFound(cap: nat, ttl: int, s: seq<Item>, h: string, p: string, at: int,
                                         ops: seq<Timed>, now: int)
    requires Distinct(s) && |s| <= cap && !Has(s, h)
    requires var item := Item(h, p, Deadline(ttl, at));
             NeverLate(ttl, item, ops) && !Expired(LastPut(ttl, item, ops).expires, now)
    requires FreshPuts(cap, ttl, Apply(cap, ttl, s, Timed(Put(h, p), at)), ops) < cap
    ensures var item := Item(h, p, Deadline(ttl, at));
            Found(Run(cap, ttl, Apply(cap, ttl, s, Timed(Put(h, p), at)), ops), h, now)
              == Some(LastPut(ttl, item, ops).payload)
  {
    var item := Item(h, p, Deadline(ttl, at));
    var s1 := Apply(cap, ttl, s, Timed(Put(h, p), at));
    ApplyKeepsShape(cap, ttl, s, Timed(Put(h, p), at));
    var i := |s1| - 1;
    assert s1[i] == item;
    SurvivesFreshPuts(cap, ttl, s1, i, ops);
    var u := Run(cap, ttl, s1, ops);
    var j :| 0 <= j < |u| && u[j] == LastPut(ttl, item, ops);
    LastPutKeepsHash(ttl, item, ops);
    IndexIs(u, j);
  }

  // ---- the store ----

  class Entry {
    const hash: string
    var payload: string
    var expires: Option<int>

    ghost function Value(): Item reads this { Item(hash, payload, expires) }

    constructor (h: string, p: string, e: Option<int>)
      ensures Value() == Item(h, p, e)
    {
      hash, payload, expires := h, p, e;
    }
  }

  class InMemory {
    const cap: nat
    const ttl: int
    var items: map<string, Entry>
    var order: seq<Entry>

    ghost predicate Valid()
      reads this
    {
      |order| <= cap && Linked()
    }

    /** Map and list agree: each listed entry is the one filed under its hash. */
    ghost predicate Linked()
      reads this
    {
      && (forall i :: 0 <= i < |order| ==> order[i].hash in items && items[order[i].hash] == order[i])
      && (forall i, j :: 0 <= i < j < |order| ==> order[i] != order[j])
      && (forall h :: h in items ==> items[h] in order && items[h].hash == h)
    }

    ghost function Abs(): seq<Item>
      reads this, order
    {
      seq(|order|, i requires 0 <= i < |order| reads this, order => order[i].Value())
    }

    constructor (capacity: nat, ttl0: int)
      ensures Valid() && Abs() == [] && cap == capacity && ttl == ttl0
    {
      cap, ttl, items, order := capacity, ttl0, map[], [];
    }

    lemma {:induction false} Lookup(hash: string)
      requires Valid()
      ensures hash in items <==> Has(Abs(), hash)
      ensures hash in items ==> order[IndexOf(Abs(), hash)] == items[hash]
      ensures Distinct(Abs())
    {
      var i := IndexOf(Abs(), hash);
      if hash in items {
        var j :| 0 <= j < |order| && order[j] == items[hash];
        assert Abs()[j].hash == hash;
      }
    }

    method Put(hash: string, payload: string, now: int)
      requires Valid()
      modifies this, order
      ensures Valid() && Abs() == Apply(cap, ttl, old(Abs()), Timed(Op.Put(hash, payload), now))
    {
      Lookup(hash);
      ghost var before := Abs();
      if hash in items {
        var el := items[hash];
        el.payload := payload;
        el.expires := Deadline(ttl, now);
        assert Abs() == before[IndexOf(before, hash) := Item(hash, payload, Deadline(ttl, now))];
        return;
      }
      var el := new Entry(hash, payload, Deadline(ttl, now));
      order := order + [el];
      items := items[hash := el];
      assert Abs() == before + [el.Value()];
      Evict();
    }

    /** Drops the oldest entries until the list fits. */
    method Evict()
      requires Linked()
      modifies this
      ensures Valid() && Abs() == Newest(old(Abs()), cap)
    {
      ghost var before := Abs();
      while |order| > cap
        invariant Linked() && |order| <= |before|
        invariant Abs() == Suffix(before, |order|)
        invariant |order| == |before| || cap <= |order|
        decreases |order|
      {
        SuffixTail(before, |order|);
        DropOldest();
      }
      assert Abs() == Newest(before, cap);
    }

    method DropOldest()
      requires Linked() && order != []
      modifies this
      ensures Linked() && order == old(order)[1..] && Abs() == old(Abs())[1..]
    {
      var oldest := order[0];
      order := order[1..];
      items := items - {oldest.hash};
      forall h | h in items ensures items[h] in order && items[h].hash == h {
        assert items[h] in [oldest] + order;
      }
    }

    method Get(hash: string, now: int) returns (r: Option<string>)
      requires Valid()
      modifies this
      ensures Valid() && Abs() == Apply(cap, ttl, old(Abs()), Timed(Op.Get(hash), now))
      ensures r == Found(old(Abs()), hash, now)
    {
      Lookup(hash);
      ghost var before := Abs();
      if hash !in items {
        return None;
      }
      var e := items[hash];
      ghost var i := IndexOf(before, hash);
      if Expired(e.expires, now) {
        Unlink(e, i);
        return None;
      }
      return Some(e.payload);
    }

    /** Takes one entry out of the list and the map. */
    method Unlink(e: Entry, ghost i: nat)
      requires Valid() && i < |order| && order[i] == e
      modifies this
      ensures Valid() && Abs() == Removed(old(Abs()), i)
    {
      var k := Position(e);
      assert k == i;
      order := order[..k] + order[k + 1..];
      items := items - {e.hash};
      assert Abs() == Removed(old(Abs()), i);
      forall h | h in items ensures items[h] in order && items[h].hash == h {
        var j :| 0 <= j < |old(order)| && old(order)[j] == items[h];
        assert order[if j < i then j else j - 1] == items[h];
      }
    }

    /** Where a list element sits; the library holds this as a pointer. */
    method Position(e: Entry) returns (k: nat)
      requires e in order
      ensures k < |order| && order[k] == e
    {
      k := 0;
      while order[k] != e
        invariant k < |order| && e in order[k..]
        decreases |order| - k
      {
        k := k + 1;
      }
    }

    method Len() returns (n: nat)
      requires Valid()
      ensures n == |Abs()| == |items|
    {
      ghost var hashes := seq(|order|, i requires 0 <= i < |order| reads this => order[i].hash);
      assert forall h :: h in hashes <==> h in items.Keys by {
        forall h | h in items ensures h in hashes {
          var j :| 0 <= j < |order| && order[j] == items[h];
          assert hashes[j] == h;
        }
      }
      UniqueCount(hashes, items.Keys);
      assert |items.Keys| == |items|;
      n := |order|;
    }
  }

  ghost function Suffix<T>(s: seq<T>, n: nat): seq<T> { if n <= |s| then s[|s| - n..] else s }

  lemma {:induction false} SuffixTail<T>(s: seq<T>, n: nat)
    requires 0 < n <= |s|
    ensures Suffix(s, n)[1..] == Suffix(s, n - 1)
  {
  }
}
