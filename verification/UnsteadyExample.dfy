/** Two short runs with the store on: one changes its cached prefix, one keeps it.

    The text is just long enough to be compressed, the router shortens it to one
    character, and the digests are three constants. */
module UnsteadyExample {

  import opened Common
  import opened Splice
  import opened Marker
  import opened Replay
  import opened LiveZone
  import opened BodyLayout
  import opened PrefixStability
  import opened ReplayRuns
  import opened DispatchSafety
  import opened StableRuns
  import Image

  function Repeated(c: char, n: nat): (s: string)
    ensures |s| == n
  {
    if n == 0 then "" else Repeated(c, n - 1) + [c]
  }

  const LONG: string := Repeated('a', BLOCK_BYTE_THRESHOLD)

  const LONG_KEY := "0123456789abcdef01234567"
  const OTHER_KEY := "76543210fedcba9876543210"
  const MD5_KEY := "00112233445566778899aabb"

  function Quoted(c: string): Bytes { "\"" + c + "\"" }

  const COPY := Slot(Block(0, -1, TextType, false, "", "", Some(Literal(Quoted(LONG), LONG))))

  /** A user message holding the text. */
  const ASKS := Message(true, false, [COPY])

  const ANSWERS := Message(false, false, [])

  const FIXED := Fixed(t => if t == LONG then LONG_KEY else OTHER_KEY, t => MD5_KEY, Quoted,
                       t => if t == LONG then 1 else 0,
                       Image.Codec(s => Image.Unreadable, (s, z) => ""))

  /** The same router and the same store on every request. */
  const OPTIONS := Options(Some((t, c) => Routed("x", "crush", [])), (c, id) => "", true, (n, k) => false, false)

  const SHRUNK: string := "x" + "\n" + MarkerFor(LONG_KEY)

  const ORIGINALS := {Original(false, "", LONG)}

  /** Every message is one of the two above. */
  ghost predicate Plain(chat: Chat) {
    |chat.head| > 0 && forall i :: 0 <= i < |chat.messages| ==> PlainMessage(chat.messages[i])
  }

  ghost predicate PlainMessage(m: Message) { m == ASKS || m == ANSWERS }

  lemma {:induction false} ShortNamesNothing(s: string)
    requires |s| < 29
    ensures Hashes(s) == []
  {
    if Hashes(s) != [] {
      var h := Hashes(s)[0];
      HashesInExactly(s, h);
    }
  }

  lemma {:induction false} MarkedIsShrunk()
    ensures InjectCCRMarker(FIXED, LONG, "x", true) == (SHRUNK, LONG_KEY)
    ensures FIXED.countText(LONG) == 1 && FIXED.countText(SHRUNK) == 0
  {
    assert |LONG| == BLOCK_BYTE_THRESHOLD;
    assert |SHRUNK| < BLOCK_BYTE_THRESHOLD;
  }

  /** The block compresses. */
  lemma {:induction false} BlockIsAccepted()
    ensures BlockOf(FIXED, OPTIONS, "", LONG) == BlockResult(true, Compressed, "crush", SHRUNK, 1, 0, LONG_KEY)
  {
    assert |"x"| != |LONG|;
    MarkedIsShrunk();
  }

  lemma {:induction false} CopyIsEligible()
    ensures Eligible(false, COPY) && PlanOne(false, COPY.block, 0).text == LONG
    ensures PlanOne(false, COPY.block, 0).kind == Compressible
  {
    assert |LONG| == BLOCK_BYTE_THRESHOLD;
  }

  lemma {:induction false} PlansAre(chat: Chat, i: nat)
    requires i < |chat.messages| && PlainMessage(chat.messages[i])
    ensures PlanAt(chat, i)
         == if chat.messages[i] == ASKS then [PlanOne(false, COPY.block, MessageStart(chat, i))] else []
    ensures forall s :: s in PlanAt(chat, i) ==> s.kind == Compressible && s.text == LONG && OriginalOf(s) in ORIGINALS
  {
    var offset := MessageStart(chat, i);
    CopyIsEligible();
    assert |LONG| == BLOCK_BYTE_THRESHOLD;
    if chat.messages[i] == ASKS {
      assert [COPY][1..] == [];
      assert Plan(false, [COPY][1..], offset + |PartBytes(COPY)|) == [];
      assert Plan(false, [COPY], offset) == [PlanOne(false, COPY.block, offset)];
    }
  }

  lemma {:induction false} KeysAreHashes()
    ensures IsHash(LONG_KEY) && IsHash(OTHER_KEY)
    ensures Digests(FIXED, ORIGINALS)
  {
  }

  lemma {:induction false} QuotedIsLegible()
    ensures LegiblePart(FIXED, false, COPY)
  {
    CopyIsEligible();
    forall c | Quoted(LONG) == FIXED.encode(c) ensures LONG == c {
      assert Quoted(LONG)[1..|Quoted(LONG)| - 1] == LONG && Quoted(c)[1..|Quoted(c)| - 1] == c;
    }
  }

  /** Such a turn meets everything assumed of it, whatever the store holds by then. */
  lemma {:induction false} InputsHold(t: TurnInput)
    requires t.op == OPTIONS && Plain(t.chat)
    ensures Inputs(FIXED, ORIGINALS, t) && Digests(FIXED, ORIGINALS)
  {
    KeysAreHashes();
    QuotedIsLegible();
    CopyIsEligible();
    ShortNamesNothing("x");
    forall i, s | 0 <= i < |t.chat.messages| && s in PlanAt(t.chat, i) && Replayable(s)
      ensures OriginalOf(s) in ORIGINALS
    {
      PlansAre(t.chat, i);
    }
    forall i, j | 0 <= i < |t.chat.messages| && 0 <= j < |t.chat.messages[i].parts|
      ensures LegiblePart(FIXED, t.chat.messages[i].whole, t.chat.messages[i].parts[j])
      ensures ProperPart(t.chat.messages[i].whole, t.chat.messages[i].parts[j])
    {
      assert PlainMessage(t.chat.messages[i]);
      assert t.chat.messages[i] == ASKS && t.chat.messages[i].parts[j] == COPY;
    }
  }

  /** The first turn of a session rewrites the live message's text. */
  lemma {:induction false} FirstTurnRewrites(t: TurnInput, i: nat) returns (s: PlanSlot)
    requires t.op == OPTIONS && Plain(t.chat) && Live(FRESH, t) == Some(i)
    ensures IsPlanned(t.chat, i, s) && Rewrites(FIXED, FRESH, t, i, s)
    ensures s == PlanOne(false, COPY.block, MessageStart(t.chat, i)) && FreshValue(FIXED, OPTIONS, t.chat, s) == SHRUNK
    ensures KeyOf(FIXED, s) == LONG_KEY
  {
    assert PlainMessage(t.chat.messages[i]);
    PlansAre(t.chat, i);
    s := PlanAt(t.chat, i)[0];
    assert s in PlanAt(t.chat, i);
    BlockIsAccepted();
  }

  // ---- two copies at once ----

  const TWICE := TurnInput(OPTIONS, Chat("{", [ASKS, ASKS], "}", 0), NO_STORE)

  /** Re-sending the same two copies changes the first one's bytes, although the store
      answers everything and the session starts empty. */
  lemma {:induction false} PrefixCanChange(later: StoreState)
    ensures var u := TWICE.(store := later);
            && Digests(FIXED, ORIGINALS) && OwnNames(FIXED, ORIGINALS, FRESH.blocks)
            && Inputs(FIXED, ORIGINALS, TWICE) && Inputs(FIXED, ORIGINALS, u) && Appends(TWICE, u)
            && !(OutAll(FIXED, FRESH, TWICE) <= OutAll(FIXED, TurnAcc(FIXED, FRESH, TWICE).session, u))
  {
    var u := TWICE.(store := later);
    InputsHold(TWICE);
    InputsHold(u);
    assert TWICE.chat.messages[1] == ASKS;
    var r := FirstTurnRewrites(TWICE, 1);
    PlansAre(TWICE.chat, 0);
    var s := PlanAt(TWICE.chat, 0)[0];
    assert IsPlanned(TWICE.chat, 0, s) && KeyOf(FIXED, s) == KeyOf(FIXED, r);
    assert !SameFate(FIXED, FRESH, TWICE, 0, s, r);
    PrefixStableIff(FIXED, ORIGINALS, FRESH, TWICE, u);
  }

  // ---- one copy ----

  const ONCE := TurnInput(OPTIONS, Chat("{", [ASKS], "}", 0), NO_STORE)
  const ANSWERED := TurnInput(OPTIONS, Chat("{", [ASKS, ANSWERS], "}", 0), NO_STORE)

  /** With one copy the text is rewritten on the first turn, and the next turn replays
      the very bytes although the store has lost its entry meanwhile. */
  lemma {:induction false} PrefixStays()
    ensures SoundRun(FIXED, ORIGINALS, FRESH, [ONCE, ANSWERED])
    ensures CopiesAgreeThroughout(FIXED, FRESH, [ONCE, ANSWERED])
    ensures OutAt(FIXED, FRESH, [ONCE, ANSWERED], 0) == [[Quoted(SHRUNK)]]
    ensures [[Quoted(SHRUNK)]] <= OutAt(FIXED, FRESH, [ONCE, ANSWERED], 1)
  {
    var turns := [ONCE, ANSWERED];
    InputsHold(ONCE);
    InputsHold(ANSWERED);
    assert turns[..0] == [];
    OnceIsRewritten();
    OnceAgrees();
    OnceIsSound();
    assert CopiesAgreeFor(FIXED, FRESH, turns, 0);
    RunPrefixStableIff(FIXED, ORIGINALS, FRESH, turns);
    assert OutAt(FIXED, FRESH, turns, 0) <= OutAt(FIXED, FRESH, turns, 1);
  }

  lemma {:induction false} OnceIsSound()
    ensures SoundRun(FIXED, ORIGINALS, FRESH, [ONCE, ANSWERED])
  {
    InputsHold(ONCE);
    InputsHold(ANSWERED);
    assert [ONCE, ANSWERED][..1] == [ONCE] && [ONCE][..0] == [];
    assert SoundRun(FIXED, ORIGINALS, FRESH, []);
    assert SoundRun(FIXED, ORIGINALS, FRESH, [ONCE]);
    assert Appends(ONCE, ANSWERED);
  }

  lemma {:induction false} OnceAgrees()
    ensures CopiesAgree(FIXED, FRESH, ONCE)
  {
    forall i, s, l, r | IsPlanned(ONCE.chat, i, s) && IsPlanned(ONCE.chat, l, r) ensures s == r && i == l {
      PlansAre(ONCE.chat, 0);
    }
  }

  lemma {:induction false} OnceIsRewritten()
    ensures OutAll(FIXED, FRESH, ONCE) == [[Quoted(SHRUNK)]]
  {
    InputsHold(ONCE);
    assert ONCE.chat.messages[0] == ASKS;
    var s := FirstTurnRewrites(ONCE, 0);
    TurnIsCalm(FIXED, ORIGINALS, FRESH, ONCE);
    RewrittenSlot(FIXED, ORIGINALS, FRESH, ONCE, 0, s);
    CopyIsEligible();
    assert ASKS.parts[0] == COPY;
    SentIs(FIXED, FRESH, ONCE, 0, 0);
    SlotOfEligible(FIXED, ONCE.chat, 0, 0);
    assert RenderParts(ASKS.parts[..0]) == "";
    SentIsOut(FIXED, FRESH, ONCE, 0, 0);
    assert OutMessage(ONCE.chat, 0, TurnAcc(FIXED, FRESH, ONCE).reps) == [Quoted(SHRUNK)];
  }
}
