/** One dispatch of the proxy: livezone.go, replay.go, compress.go and plan.go of internal/livezone. */
module LiveZone {

  // JSON is given as its parse: a body is literal bytes and string slots, so every
  // offset gjson would report is the rendered length before it.

  import opened Common
  import opened Text
  import opened Splice
  import opened Marker
  import opened Replay
  import Image

  const BLOCK_BYTE_THRESHOLD: nat := 512

  /** The values of a block's "type" the planner tells apart. */
  datatype BlockType = TextType | ImageType | ToolResult | ToolUse | Thinking | RedactedThinking | Compaction
                     | OtherType(name: string)

  // ---- the body ----

  /** A JSON string: its bytes with the quotes, and the text it denotes. */
  datatype Literal = Literal(raw: Bytes, text: string)

  /** A content block, or one element of a tool_result's content array when
      contentIndex >= 0. cacheMarked says a cache_control sits on it. */
  datatype Block = Block(blockIndex: nat, contentIndex: int, blockType: BlockType, cacheMarked: bool,
                         toolUseID: string, mediaType: string, lit: Option<Literal>)

  datatype Part = Glue(bytes: Bytes) | Slot(block: Block)

  /** whole marks the legacy shape, a message whose content is one JSON string. */
  datatype Message = Message(user: bool, whole: bool, parts: seq<Part>)

  datatype Chat = Chat(head: Bytes, messages: seq<Message>, tail: Bytes, cacheFloor: nat)

  datatype Request = NotJson(bytes: Bytes) | NoMessages(bytes: Bytes) | Conversation(chat: Chat)

  function PartBytes(p: Part): Bytes {
    match p
    case Glue(bytes) => bytes
    case Slot(b) => if b.lit.Some? then b.lit.value.raw else ""
  }

  function RenderParts(parts: seq<Part>): Bytes {
    if parts == [] then "" else PartBytes(parts[0]) + RenderParts(parts[1..])
  }

  function RenderMessages(ms: seq<Message>): Bytes {
    if ms == [] then "" else RenderParts(ms[0].parts) + RenderMessages(ms[1..])
  }

  function Render(chat: Chat): Bytes { chat.head + RenderMessages(chat.messages) + chat.tail }

  /** The opening brace precedes every message, and a JSON string has two quotes. */
  ghost predicate WellFormed(chat: Chat) {
    && |chat.head| > 0
    && forall i, j :: 0 <= i < |chat.messages| && 0 <= j < |chat.messages[i].parts| ==>
         ProperPart(chat.messages[i].whole, chat.messages[i].parts[j])
  }

  ghost predicate ProperPart(whole: bool, p: Part) {
    p.Slot? ==> (p.block.lit.Some? ==> |p.block.lit.value.raw| >= 2) && (whole ==> p.block.lit.Some?)
  }

  // ---- planning ----

  datatype SlotKind = Compressible | StringContent | HotZone | BelowThreshold | ImageData | Unreachable

  datatype PlanSlot = PlanSlot(blockIndex: nat, kind: SlotKind, blockType: BlockType, text: string, start: nat,
                               end: nat,
                               toolUseID: string, contentIndex: int, mediaType: string)

  predicate IsHotZone(t: BlockType) { t.ToolUse? || t.Thinking? || t.RedactedThinking? || t.Compaction? }

  predicate HasTextField(b: Block) {
    b.blockType.TextType? || b.blockType.ImageType? || (b.contentIndex < 0 && b.blockType.ToolResult?)
  }

  function BaseKind(whole: bool, b: Block): SlotKind {
    if whole then StringContent
    else if IsHotZone(b.blockType) || (b.contentIndex >= 0 && b.cacheMarked) then HotZone
    else if !HasTextField(b) || b.lit.None? then Unreachable
    else if b.blockType.ImageType? then ImageData
    else Compressible
  }

  /** The byte threshold applied to a located string. */
  function Classify(text: string, base: SlotKind): SlotKind {
    if |text| < BLOCK_BYTE_THRESHOLD then BelowThreshold else base
  }

  predicate Located(whole: bool, b: Block) {
    b.lit.Some? && !BaseKind(whole, b).HotZone? && !BaseKind(whole, b).Unreachable?
  }

  function PlanOne(whole: bool, b: Block, offset: nat): PlanSlot {
    var base := BaseKind(whole, b);
    if Located(whole, b) then
      var l := b.lit.value;
      PlanSlot(b.blockIndex, Classify(l.text, base), b.blockType, l.text, offset, offset + |l.raw|, b.toolUseID,
               b.contentIndex, b.mediaType)
    else
      PlanSlot(b.blockIndex, base, b.blockType, "", 0, 0, b.toolUseID, b.contentIndex, b.mediaType)
  }

  function Plan(whole: bool, parts: seq<Part>, offset: nat): seq<PlanSlot> {
    if parts == [] then []
    else
      var here := if parts[0].Slot? then [PlanOne(whole, parts[0].block, offset)] else [];
      here + Plan(whole, parts[1..], offset + |PartBytes(parts[0])|)
  }

  function MessageStart(chat: Chat, i: nat): nat
    requires i <= |chat.messages|
  {
    |chat.head| + |RenderMessages(chat.messages[..i])|
  }

  function PlanAt(chat: Chat, i: nat): seq<PlanSlot>
    requires i < |chat.messages|
  {
    Plan(chat.messages[i].whole, chat.messages[i].parts, MessageStart(chat, i))
  }

  /** Some slots, then the plan of what is left of the message. */
  ghost predicate Planned(whole: bool, parts: seq<Part>, j: nat, offset: nat, slots: seq<PlanSlot>,
                          plan: seq<PlanSlot>) {
    j <= |parts| && slots + Plan(whole, parts[j..], offset) == plan
  }

  lemma {:induction false} PlanStep(whole: bool, parts: seq<Part>, j: nat, offset: nat, slots: seq<PlanSlot>,
                                    plan: seq<PlanSlot>)
    requires j < |parts| && Planned(whole, parts, j, offset, slots, plan)
    ensures var more := if parts[j].Slot? then slots + [PlanOne(whole, parts[j].block, offset)] else slots;
            Planned(whole, parts, j + 1, offset + |PartBytes(parts[j])|, more, plan)
  {
    assert parts[j..][0] == parts[j] && parts[j..][1..] == parts[j + 1..];
  }

  method PlanBlocks(chat: Chat, msgIdx: nat) returns (slots: seq<PlanSlot>)
    requires msgIdx < |chat.messages|
    ensures slots == PlanAt(chat, msgIdx)
  {
    slots := PlanParts(chat.messages[msgIdx].whole, chat.messages[msgIdx].parts, MessageStart(chat, msgIdx));
  }

  /** The walk over one message's blocks. */
  method PlanParts(whole: bool, parts: seq<Part>, start: nat) returns (slots: seq<PlanSlot>)
    ensures slots == Plan(whole, parts, start)
  {
    var offset: nat := start;
    slots := [];
    ghost var plan := Plan(whole, parts, start);
    assert parts[0..] == parts;
    for j := 0 to |parts|
      invariant Planned(whole, parts, j, offset, slots, plan)
    {
      PlanStep(whole, parts, j, offset, slots, plan);
      if parts[j].Slot? {
        slots := slots + [PlanOne(whole, parts[j].block, offset)];
      }
      offset := offset + |PartBytes(parts[j])|;
    }
    assert Plan(whole, parts[|parts|..], offset) == [];
  }

  /** The highest-numbered user message at or above floor, found from the end. */
  method FindLatestUserMessage(chat: Chat, floor: nat) returns (r: Option<nat>)
    ensures r == LatestUser(chat.messages, floor)
  {
    var i: int := |chat.messages| - 1;
    while i >= floor
      invariant -1 <= i < |chat.messages|
      invariant LatestUser(chat.messages[..i + 1], floor) == LatestUser(chat.messages, floor)
      decreases i
    {
      assert chat.messages[..i + 1][..i] == chat.messages[..i];
      if chat.messages[i].user {
        return Some(i);
      }
      i := i - 1;
    }
    assert chat.messages[..|chat.messages|] == chat.messages;
    return None;
  }

  ghost function LatestUser(ms: seq<Message>, floor: nat): (r: Option<nat>)
    ensures r.Some? ==> floor <= r.value < |ms| && ms[r.value].user
    ensures r.Some? ==> forall j :: r.value < j < |ms| ==> !ms[j].user
    ensures r.None? ==> forall j :: floor <= j < |ms| ==> !ms[j].user
  {
    if |ms| <= floor then None
    else if ms[|ms| - 1].user then Some(|ms| - 1)
    else LatestUser(ms[..|ms| - 1], floor)
  }

  // ---- the collaborators ----

  /** What the router made of a text, and the store writes it made on the way. */
  datatype Routed = Routed(output: string, steps: string, writes: seq<(Key, string)>)

  /** Fixed for the life of the proxy: hashes, the JSON encoder, prices. */
  datatype Fixed = Fixed(computeKey: string -> Key, computeMD5: string -> Key, encode: string -> Bytes,
                         countText: string -> nat, codec: Image.Codec)

  /** May differ from one dispatch to the next. lose(n, k) says that operation n on
      the store loses the entry k, or drops the write of k it is asked for. */
  datatype Options = Options(route: Option<(string, string) -> Routed>, context: (Chat, string) -> string,
                             hasStore: bool, lose: (nat, Key) -> bool, imageFit: bool)

  /** An unreliable store. Anything may vanish at any operation except what was
      read back during this call. */
  datatype StoreState = StoreState(entries: map<Key, string>, readBack: set<Key>, clock: nat)

  function Fade(lose: (nat, Key) -> bool, s: StoreState): StoreState {
    StoreState(map k | k in s.entries && (k in s.readBack || !lose(s.clock, k)) :: s.entries[k], s.readBack,
               s.clock + 1)
  }

  function StorePut(lose: (nat, Key) -> bool, s: StoreState, hash: Key, payload: string): StoreState {
    var t := Fade(lose, s);
    if lose(s.clock, hash) then t else t.(entries := t.entries[hash := payload])
  }

  function StoreGet(lose: (nat, Key) -> bool, s: StoreState, hash: Key): (StoreState, Option<string>) {
    var t := Fade(lose, s);
    if hash in t.entries then (t.(readBack := t.readBack + {hash}), Some(t.entries[hash])) else (t, None)
  }

  class Store {
    var state: StoreState
    const lose: (nat, Key) -> bool

    method Put(hash: Key, payload: string)
      modifies this
      ensures state == StorePut(lose, old(state), hash, payload)
    {
      state := StorePut(lose, state, hash, payload);
    }

    method Get(hash: Key) returns (r: Option<string>)
      modifies this
      ensures (state, r) == StoreGet(lose, old(state), hash)
    {
      var g := StoreGet(lose, state, hash);
      state := g.0;
      r := g.1;
    }
  }

  // ---- store checks ----

  ghost function GetAll(lose: (nat, Key) -> bool, s: StoreState, hashes: seq<Key>): (StoreState, bool)
    decreases |hashes|
  {
    if hashes == [] then (s, true)
    else
      var g := StoreGet(lose, s, hashes[0]);
      if g.1.None? then (g.0, false) else GetAll(lose, g.0, hashes[1..])
  }

  ghost function Resolves(lose: (nat, Key) -> bool, s: StoreState, hash: Key, original: string,
                          replacement: string): (StoreState, bool) {
    var g := StoreGet(lose, s, hash);
    if g.1 != Some(original) then (g.0, false) else GetAll(lose, g.0, Hashes(replacement))
  }

  method StoreResolves(store: Store, hash: Key, original: string, replacement: string) returns (ok: bool)
    modifies store
    ensures (store.state, ok) == Resolves(store.lose, old(store.state), hash, original, replacement)
  {
    var got := store.Get(hash);
    if got != Some(original) {
      return false;
    }
    var hs := HashesIn(replacement);
    ghost var s1 := store.state;
    for i := 0 to |hs|
      invariant GetAll(store.lose, store.state, hs[i..]) == GetAll(store.lose, s1, hs)
    {
      assert hs[i..][0] == hs[i] && hs[i..][1..] == hs[i + 1..];
      var e := store.Get(hs[i]);
      if e.None? {
        return false;
      }
    }
    return true;
  }

  // ---- compressing one block ----

  /** Writes a router made, held back until the token gate decides. */
  datatype Staged = Staged(hashes: seq<Key>, payloads: map<Key, string>)

  ghost function StagePut(s: Staged, hash: Key, payload: string): Staged {
    Staged(if hash in s.payloads then s.hashes else s.hashes + [hash], s.payloads[hash := payload])
  }

  ghost function StageAll(writes: seq<(Key, string)>): Staged {
    if writes == [] then Staged([], map[])
    else
      var w := writes[|writes| - 1];
      StagePut(StageAll(writes[..|writes| - 1]), w.0, w.1)
  }

  ghost predicate Consistent(s: Staged) { forall h :: h in s.hashes <==> h in s.payloads }

  /** The store once the first n staged writes have been replayed into it. */
  ghost function Committed(lose: (nat, Key) -> bool, s: StoreState, staged: Staged, n: nat): StoreState
    requires n <= |staged.hashes| && Consistent(staged)
  {
    if n == 0 then s
    else
      var h := staged.hashes[n - 1];
      assert h in staged.hashes;
      StorePut(lose, Committed(lose, s, staged, n - 1), h, staged.payloads[h])
  }

  lemma {:induction false} StageAllConsistent(writes: seq<(Key, string)>)
    ensures Consistent(StageAll(writes))
  {
    if writes != [] {
      StageAllConsistent(writes[..|writes| - 1]);
    }
  }

  class StagingStore {
    const backing: Store
    var hashes: seq<Key>
    var staged: map<Key, string>

    ghost function Value(): Staged reads this { Staged(hashes, staged) }

    constructor (b: Store)
      ensures backing == b && Value() == StageAll([])
    {
      backing, hashes, staged := b, [], map[];
    }

    method Put(hash: Key, payload: string)
      modifies this
      ensures Value() == StagePut(old(Value()), hash, payload)
    {
      if hash !in staged {
        hashes := hashes + [hash];
      }
      staged := staged[hash := payload];
    }

    /** Reads fall through, so a transform sees its own staged write. */
    method Get(hash: Key) returns (r: Option<string>)
      modifies backing
      ensures hash in staged ==> r == Some(staged[hash]) && backing.state == old(backing.state)
      ensures hash !in staged ==> (backing.state, r) == StoreGet(backing.lose, old(backing.state), hash)
    {
      if hash in staged {
        return Some(staged[hash]);
      }
      r := backing.Get(hash);
    }

    /** Replays the staged writes into the backing store, in Put order. */
    method Commit()
      requires Consistent(Value())
      modifies backing
      ensures backing.state == Committed(backing.lose, old(backing.state), Value(), |hashes|)
    {
      for i := 0 to |hashes|
        invariant backing.state == Committed(backing.lose, old(backing.state), Value(), i)
      {
        assert hashes[i] in hashes;
        backing.Put(hashes[i], staged[hashes[i]]);
      }
    }
  }

  datatype Action = Compressed | Replayed | SkippedHotZone | SkippedBelowThreshold | NoOp | RejectedTokens
                  | SkippedUnreachable | ImageResized | ImageDeclined | StoreUnresolvable

  datatype BlockResult = BlockResult(accepted: bool, action: Action, strategy: string, replacement: string,
                                     tokensBefore: nat, tokensAfter: nat, cacheKey: Key)

  const NO_OP := BlockResult(false, NoOp, "", "", 0, 0, "")

  /** Invariant I5: only a strict saving is kept. */
  predicate AcceptsI5(tokensBefore: nat, tokensAfter: nat) { tokensAfter < tokensBefore }

  predicate EndsWithNewline(s: string) { |s| > 0 && s[|s| - 1] == '\n' }

  function InjectCCRMarker(fx: Fixed, original: string, compressed: string, hasStore: bool): (string, Key) {
    if !hasStore then (compressed, "")
    else
      var hash := fx.computeKey(original);
      (compressed + (if EndsWithNewline(compressed) then "" else "\n") + MarkerFor(hash), hash)
  }

  /** The block's result; the store changes only when it is accepted. */
  ghost function BlockOf(fx: Fixed, op: Options, ctx: string, text: string): BlockResult {
    if op.route.None? || !op.hasStore then NO_OP
    else
      var res := op.route.value(text, ctx);
      if res.output == "" || res.output == text then NO_OP
      else
        var c := InjectCCRMarker(fx, text, res.output, op.hasStore);
        var before, after := fx.countText(text), fx.countText(c.0);
        if AcceptsI5(before, after) then BlockResult(true, Compressed, res.steps, c.0, before, after, c.1)
        else BlockResult(false, RejectedTokens, res.steps, "", before, after, "")
  }

  ghost function StoreAfterBlock(fx: Fixed, op: Options, ctx: string, text: string, s: StoreState): StoreState {
    if BlockOf(fx, op, ctx, text).accepted then
      var staged := StageAll(op.route.value(text, ctx).writes);
      StageAllConsistent(op.route.value(text, ctx).writes);
      Committed(op.lose, s, staged, |staged.hashes|)
    else s
  }

  method CompressBlock(fx: Fixed, op: Options, store: Store?, text: string, ctx: string) returns (r: BlockResult)
    requires op.hasStore <==> store != null
    requires store != null ==> store.lose == op.lose
    modifies store
    ensures r == BlockOf(fx, op, ctx, text)
    ensures store != null ==> store.state == StoreAfterBlock(fx, op, ctx, text, old(store.state))
  {
    if op.route.None? {
      return NO_OP;
    }
    if store == null {
      return NO_OP;
    }
    var res := op.route.value(text, ctx);
    var staged := new StagingStore(store);
    for i := 0 to |res.writes|
      invariant staged.Value() == StageAll(res.writes[..i])
      invariant store.state == old(store.state)
    {
      assert res.writes[..i + 1][..i] == res.writes[..i];
      staged.Put(res.writes[i].0, res.writes[i].1);
    }
    assert res.writes[..|res.writes|] == res.writes;
    if res.output == "" || res.output == text {
      return NO_OP;
    }
    var c := InjectCCRMarker(fx, text, res.output, true);
    var before, after := fx.countText(text), fx.countText(c.0);
    if !AcceptsI5(before, after) {
      return BlockResult(false, RejectedTokens, res.steps, "", before, after, "");
    }
    StageAllConsistent(res.writes);
    staged.Commit();
    return BlockResult(true, Compressed, res.steps, c.0, before, after, c.1);
  }

  // ---- the specification of one dispatch ----

  datatype Outcome = Outcome(messageIndex: nat, index: nat, blockType: BlockType, action: Action, strategy: string,
                             tokensBefore: nat, tokensAfter: nat, cacheKey: Key, contentIndex: int)

  /** Everything a pass accumulates or writes. */
  datatype Acc = Acc(reps: seq<Replacement>, outcomes: seq<Outcome>, before: nat, after: nat, rejected: bool,
                     session: Session, store: StoreState)

  function Note(msgIdx: nat, s: PlanSlot, action: Action): Outcome {
    Outcome(msgIdx, s.blockIndex, s.blockType, action, "", 0, 0, "", s.contentIndex)
  }

  predicate Replayable(s: PlanSlot) {
    s.kind == Compressible || s.kind == StringContent || s.kind == ImageData
  }

  /** Domain-separated payload an image is hashed under. */
  function ImagePayload(mediaType: string, b64: string): string {
    "hr-image\0" + mediaType + "\0" + b64
  }

  function KeyOf(fx: Fixed, s: PlanSlot): Key {
    if s.kind == ImageData then fx.computeKey(ImagePayload(s.mediaType, s.text)) else fx.computeKey(s.text)
  }

  /** The store after a replayed text is refreshed under the hashes it names, and
      whether everything it names resolves. */
  ghost function Refreshed(fx: Fixed, op: Options, st: StoreState, text: string, compressed: string): (StoreState,
      bool) {
    var s1 := StorePut(op.lose, st, fx.computeKey(text), text);
    var md5 := fx.computeMD5(text);
    var s2 := if Contains(compressed, md5) then StorePut(op.lose, s1, md5, text) else s1;
    Resolves(op.lose, s2, fx.computeKey(text), text, compressed)
  }

  function Price(fx: Fixed, image: bool, s: string): nat {
    if image then Image.VisualTokens(fx.codec, s) else fx.countText(s)
  }

  ghost function ReplaySlot(fx: Fixed, op: Options, turn: nat, msgIdx: nat, acc: Acc, s: PlanSlot): Acc {
    var hash := KeyOf(fx, s);
    if !Replayable(s) || hash !in acc.session.blocks then acc
    else
      var compressed := acc.session.blocks[hash].text;
      var seen := acc.(session := Apply(acc.session, Look(turn, hash)));
      var image := s.kind == ImageData;
      var checked := if image || !op.hasStore then (acc.store, true)
        else Refreshed(fx, op, acc.store, s.text, compressed);
      if !checked.1 then
        seen.(session := Apply(seen.session, Drop(hash)), store := checked.0,
              outcomes := acc.outcomes + [Note(msgIdx, s, StoreUnresolvable).(cacheKey := hash)])
      else
        var b, a := Price(fx, image, s.text), Price(fx, image, compressed);
        seen.(store := checked.0, reps := acc.reps + [Replacement(s.start, s.end, fx.encode(compressed))],
              outcomes := acc.outcomes
                + [Note(msgIdx, s, Replayed).(tokensBefore := b, tokensAfter := a, cacheKey := hash)],
              before := acc.before + b, after := acc.after + a)
  }

  ghost function ReplaySlots(fx: Fixed, op: Options, turn: nat, msgIdx: nat, acc: Acc, slots: seq<PlanSlot>): Acc {
    if slots == [] then acc
    else ReplaySlot(fx, op, turn, msgIdx, ReplaySlots(fx, op, turn, msgIdx, acc, slots[..|slots| - 1]),
                    slots[|slots| - 1])
  }

  /** The replay pass over the first n messages. */
  ghost function ReplayMessages(fx: Fixed, op: Options, turn: nat, chat: Chat, acc: Acc, n: nat): Acc
    requires n <= |chat.messages|
  {
    if n == 0 then acc
    else ReplaySlots(fx, op, turn, n - 1, ReplayMessages(fx, op, turn, chat, acc, n - 1), PlanAt(chat, n - 1))
  }

  function Start(session: Session, store: StoreState): Acc { Acc([], [], 0, 0, false, session, store) }

  ghost function ReplayPass(fx: Fixed, op: Options, replaying: bool, turn: nat, chat: Chat, session: Session,
                            store: StoreState): Acc {
    if replaying then ReplayMessages(fx, op, turn, chat, Start(session, store), |chat.messages|)
    else Start(session, store)
  }

  ghost function Starts(reps: seq<Replacement>): set<int> { set r | r in reps :: r.start }

  ghost function FreshImage(fx: Fixed, op: Options, replaying: bool, turn: nat, msgIdx: nat, acc: Acc,
                            s: PlanSlot): Acc {
    var fit := if op.imageFit then Image.FitImage(fx.codec, s.text, s.mediaType) else Image.Declined;
    if fit.Declined? then acc.(outcomes := acc.outcomes + [Note(msgIdx, s, ImageDeclined)])
    else
      acc.(outcomes := acc.outcomes
        + [Note(msgIdx, s, ImageResized).(tokensBefore := fit.before, tokensAfter := fit.after)],
           session := if replaying then Apply(acc.session, Keep(turn, KeyOf(fx, s), fit.b64)) else acc.session,
           reps := acc.reps + [Replacement(s.start, s.end, fx.encode(fit.b64))],
           before := acc.before + fit.before, after := acc.after + fit.after)
  }

  function Tried(msgIdx: nat, s: PlanSlot, br: BlockResult): Outcome {
    Outcome(msgIdx, s.blockIndex, s.blockType, br.action, br.strategy, br.tokensBefore, br.tokensAfter, br.cacheKey,
            s.contentIndex)
  }

  ghost function FreshText(fx: Fixed, op: Options, replaying: bool, turn: nat, chat: Chat, msgIdx: nat, acc: Acc,
                           s: PlanSlot): Acc {
    var ctx := op.context(chat, s.toolUseID);
    var br := BlockOf(fx, op, ctx, s.text);
    var s1 := StoreAfterBlock(fx, op, ctx, s.text, acc.store);
    var tried := acc.(outcomes := acc.outcomes + [Tried(msgIdx, s, br)],
                      rejected := acc.rejected || br.action == RejectedTokens, store := s1);
    var applied := tried.(reps := acc.reps + [Replacement(s.start, s.end, fx.encode(br.replacement))],
                          before := acc.before + br.tokensBefore, after := acc.after + br.tokensAfter);
    if !br.accepted then tried
    else if op.hasStore && br.cacheKey != "" then
      var checked := Resolves(op.lose, StorePut(op.lose, s1, br.cacheKey, s.text), br.cacheKey, s.text, br.replacement);
      if !checked.1 then
        tried.(store := checked.0, outcomes := acc.outcomes + [Tried(msgIdx, s, br).(action := StoreUnresolvable)])
      else
        applied.(store := checked.0,
                 session := if replaying then Apply(acc.session, Keep(turn, br.cacheKey, br.replacement))
                   else acc.session)
    else applied
  }

  ghost function FreshSlot(fx: Fixed, op: Options, replaying: bool, turn: nat, chat: Chat, msgIdx: nat,
                           claimed: set<int>,
                           acc: Acc, s: PlanSlot): Acc {
    if s.start in claimed then acc
    else match s.kind
      case HotZone => acc.(outcomes := acc.outcomes + [Note(msgIdx, s, SkippedHotZone)])
      case BelowThreshold => acc.(outcomes := acc.outcomes + [Note(msgIdx, s, SkippedBelowThreshold)])
      case Unreachable => acc.(outcomes := acc.outcomes + [Note(msgIdx, s, SkippedUnreachable)])
      case ImageData => FreshImage(fx, op, replaying, turn, msgIdx, acc, s)
      case _ => FreshText(fx, op, replaying, turn, chat, msgIdx, acc, s)
  }

  ghost function FreshSlots(fx: Fixed, op: Options, replaying: bool, turn: nat, chat: Chat, msgIdx: nat,
                            claimed: set<int>,
                            acc: Acc, slots: seq<PlanSlot>): Acc {
    if slots == [] then acc
    else FreshSlot(fx, op, replaying, turn, chat, msgIdx, claimed,
                   FreshSlots(fx, op, replaying, turn, chat, msgIdx, claimed, acc,
                              slots[..|slots| - 1]), slots[|slots| - 1])
  }

  ghost function FreshPass(fx: Fixed, op: Options, replaying: bool, turn: nat, chat: Chat, floor: nat, acc: Acc): Acc {
    match LatestUser(chat.messages, floor)
    case None => acc
    case Some(i) => FreshSlots(fx, op, replaying, turn, chat, i, Starts(acc.reps), acc, PlanAt(chat, i))
  }

  /** Both passes over a conversation. */
  ghost function Passes(fx: Fixed, op: Options, replaying: bool, turn: nat, chat: Chat, floor: nat, session: Session,
                        store: StoreState): Acc {
    FreshPass(fx, op, replaying, turn, chat, floor, ReplayPass(fx, op, replaying, turn, chat, session, store))
  }

  datatype Reason = Ok | NotJSON | NoMessageArray | NoLiveZone | NoCandidates | AllRejected

  datatype Result = Result(body: Bytes, applied: bool, reason: Reason, frozen: nat, rewritten: seq<Range>,
                           blocks: seq<Outcome>, tokensBefore: nat, tokensAfter: nat)

  function Passthrough(body: Bytes, reason: Reason, frozen: nat): Result {
    Result(body, false, reason, frozen, [], [], 0, 0)
  }

  /** The floor in force: the caller's, or the cache_control one when it is negative. */
  function Floor(chat: Chat, frozen: int): nat { if frozen < 0 then chat.cacheFloor else frozen }

  ghost function ResultOf(chat: Chat, floor: nat, acc: Acc): Result {
    var body := Render(chat);
    var live := LatestUser(chat.messages, floor);
    if acc.reps == [] then
      if live.None? then Passthrough(body, NoLiveZone, floor)
      else if PlanAt(chat, live.value) == [] then Passthrough(body, NoCandidates, floor)
      else Passthrough(body, if acc.rejected then AllRejected else NoCandidates, floor).(blocks := acc.outcomes)
    else
      Result(Spliced(body, 0, Accepted(body, acc.reps)), true, Ok, floor, RangesOf(Accepted(body, acc.reps)),
             acc.outcomes, acc.before, acc.after)
  }

  // ---- the dispatcher ----

  ghost function SessionOf(h: SessionReplay?): Session
    reads if h == null then {} else {h.sess}
  {
    if h == null then FRESH else h.sess.Value()
  }

  const NO_STORE := StoreState(map[], {}, 0)

  ghost function StateOf(store: Store?): StoreState
    reads store
  {
    if store == null then NO_STORE else store.state
  }

  ghost predicate Ready(op: Options, replay: SessionReplay?, store: Store?)
    reads if replay == null then {} else {replay.parent}, if replay == null then [] else replay.parent.heap
  {
    && (replay != null ==> replay.Valid())
    && (op.hasStore <==> store != null)
    && (store != null ==> store.lose == op.lose)
  }

  function TurnOf(replay: SessionReplay?): nat { if replay == null then 0 else replay.turn }

  /** Refreshes what a replayed text names and reads it all back. */
  method Refresh(fx: Fixed, store: Store, hash: Key, text: string, compressed: string, ghost op: Options)
    returns (ok: bool)
    requires hash == fx.computeKey(text) && store.lose == op.lose
    modifies store
    ensures (store.state, ok) == Refreshed(fx, op, old(store.state), text, compressed)
  {
    store.Put(hash, text);
    var md5 := fx.computeMD5(text);
    if Contains(compressed, md5) {
      store.Put(md5, text);
    }
    ok := StoreResolves(store, hash, text, compressed);
  }

  /** One slot of the replay pass. */
  method ReplayOne(fx: Fixed, op: Options, replay: SessionReplay, store: Store?, msgIdx: nat, s: PlanSlot,
                   reps: seq<Replacement>, outcomes: seq<Outcome>, before: nat, after: nat)
    returns (reps': seq<Replacement>, outcomes': seq<Outcome>, before': nat, after': nat)
    requires Ready(op, replay, store)
    modifies replay.sess`blocks, store
    ensures Ready(op, replay, store)
    ensures Acc(reps', outcomes', before', after', false, replay.sess.Value(), StateOf(store))
         == ReplaySlot(fx, op, replay.turn, msgIdx,
                       Acc(reps, outcomes, before, after, false, old(replay.sess.Value()), old(StateOf(store))), s)
  {
    reps', outcomes', before', after' := reps, outcomes, before, after;
    if s.kind != Compressible && s.kind != StringContent && s.kind != ImageData {
      return;
    }
    var hash := KeyOf(fx, s);
    var found := replay.Lookup(hash);
    if found.None? {
      return;
    }
    SeenAlready(fx, op, replay.turn, msgIdx,
                Acc(reps, outcomes, before, after, false, old(replay.sess.Value()), StateOf(store)), s);
    reps', outcomes', before', after' := ReplayHit(fx, op, replay, store, msgIdx, s, found.value, reps, outcomes,
                                                   before, after);
  }

  /** Looking the key up first changes nothing about the slot's step. */
  lemma {:induction false} SeenAlready(fx: Fixed, op: Options, turn: nat, msgIdx: nat, acc: Acc, s: PlanSlot)
    requires Replayable(s) && KeyOf(fx, s) in acc.session.blocks
    ensures ReplaySlot(fx, op, turn, msgIdx, acc.(session := Apply(acc.session, Look(turn, KeyOf(fx, s)))), s)
         == ReplaySlot(fx, op, turn, msgIdx, acc, s)
  {
    var seen := Apply(acc.session, Look(turn, KeyOf(fx, s)));
    assert Apply(seen, Look(turn, KeyOf(fx, s))) == seen;
  }

  /** A slot whose key is known: refresh and check its text, then replace it or forget it. */
  method ReplayHit(fx: Fixed, op: Options, replay: SessionReplay, store: Store?, msgIdx: nat, s: PlanSlot,
                   compressed: string,
                   reps: seq<Replacement>, outcomes: seq<Outcome>, before: nat, after: nat)
    returns (reps': seq<Replacement>, outcomes': seq<Outcome>, before': nat, after': nat)
    requires Ready(op, replay, store)
    requires Replayable(s) && KeyOf(fx, s) in replay.sess.blocks
    requires replay.sess.blocks[KeyOf(fx, s)] == Entry(compressed, replay.turn)
    modifies replay.sess`blocks, store
    ensures Ready(op, replay, store)
    ensures Acc(reps', outcomes', before', after', false, replay.sess.Value(), StateOf(store))
         == ReplaySlot(fx, op, replay.turn, msgIdx,
                       Acc(reps, outcomes, before, after, false, old(replay.sess.Value()), old(StateOf(store))), s)
  {
    reps', outcomes', before', after' := reps, outcomes, before, after;
    var hash := KeyOf(fx, s);
    ghost var seen := Apply(replay.sess.Value(), Look(replay.turn, hash));
    assert seen == replay.sess.Value();
    if s.kind != ImageData && store != null {
      var ok := Refresh(fx, store, hash, s.text, compressed, op);
      if !ok {
        replay.Forget(hash);
        outcomes' := outcomes + [Note(msgIdx, s, StoreUnresolvable).(cacheKey := hash)];
        return;
      }
    }
    var b, a := Price(fx, s.kind == ImageData, s.text), Price(fx, s.kind == ImageData, compressed);
    reps' := reps + [Replacement(s.start, s.end, fx.encode(compressed))];
    outcomes' := outcomes + [Note(msgIdx, s, Replayed).(tokensBefore := b, tokensAfter := a, cacheKey := hash)];
    before', after' := before + b, after + a;
  }

  /** The replay pass over one message. */
  method ReplayMessage(fx: Fixed, op: Options, replay: SessionReplay, store: Store?, msgIdx: nat, slots: seq<PlanSlot>,
                       reps: seq<Replacement>, outcomes: seq<Outcome>, before: nat, after: nat)
    returns (reps': seq<Replacement>, outcomes': seq<Outcome>, before': nat, after': nat)
    requires Ready(op, replay, store)
    modifies replay.sess`blocks, store
    ensures Ready(op, replay, store)
    ensures Acc(reps', outcomes', before', after', false, replay.sess.Value(), StateOf(store))
         == ReplaySlots(fx, op, replay.turn, msgIdx,
                        Acc(reps, outcomes, before, after, false, old(replay.sess.Value()), old(StateOf(store))), slots)
  {
    reps', outcomes', before', after' := reps, outcomes, before, after;
    ghost var entry := Acc(reps, outcomes, before, after, false, replay.sess.Value(), StateOf(store));
    for j := 0 to |slots|
      invariant Ready(op, replay, store)
      invariant Acc(reps', outcomes', before', after', false, replay.sess.Value(), StateOf(store))
             == ReplaySlots(fx, op, replay.turn, msgIdx, entry, slots[..j])
    {
      assert slots[..j + 1][..j] == slots[..j];
      reps', outcomes', before', after' := ReplayOne(fx, op, replay, store, msgIdx, slots[j], reps', outcomes',
                                                     before', after');
    }
    assert slots[..|slots|] == slots;
  }

  /** Re-applies this session's earlier compressions across the whole conversation. */
  method ReplayAll(fx: Fixed, op: Options, replay: SessionReplay?, store: Store?, chat: Chat)
    returns (reps: seq<Replacement>, outcomes: seq<Outcome>, before: nat, after: nat)
    requires Ready(op, replay, store)
    modifies if replay == null then {} else {replay.sess}, store
    ensures Ready(op, replay, store)
    ensures Acc(reps, outcomes, before, after, false, SessionOf(replay), StateOf(store))
         == ReplayPass(fx, op, replay != null, TurnOf(replay), chat, old(SessionOf(replay)), old(StateOf(store)))
  {
    reps, outcomes, before, after := [], [], 0, 0;
    if replay == null {
      return;
    }
    ghost var start := Start(SessionOf(replay), StateOf(store));
    for msgIdx := 0 to |chat.messages|
      invariant Ready(op, replay, store)
      invariant Acc(reps, outcomes, before, after, false, replay.sess.Value(), StateOf(store))
             == ReplayMessages(fx, op, replay.turn, chat, start, msgIdx)
    {
      var slots := PlanBlocks(chat, msgIdx);
      reps, outcomes, before, after := ReplayMessage(fx, op, replay, store, msgIdx, slots, reps, outcomes, before,
                                                     after);
    }
  }

  /** Stores an accepted block's original, reads everything its replacement names
      back, and only then records it for later turns. */
  method KeepIfResolved(ghost op: Options, replay: SessionReplay?, store: Store, cacheKey: Key, text: string,
                        replacement: string)
    returns (ok: bool)
    requires Ready(op, replay, store)
    modifies if replay == null then {} else {replay.sess}, store
    ensures Ready(op, replay, store)
    ensures (store.state, ok)
         == Resolves(op.lose, StorePut(op.lose, old(store.state), cacheKey, text), cacheKey, text, replacement)
    ensures SessionOf(replay)
         == if ok && replay != null then Apply(old(SessionOf(replay)), Keep(TurnOf(replay), cacheKey, replacement))
                                 else old(SessionOf(replay))
  {
    store.Put(cacheKey, text);
    ok := StoreResolves(store, cacheKey, text, replacement);
    if ok && replay != null {
      replay.Record(cacheKey, replacement);
    }
  }

  /** The text case of the fresh pass. */
  method FreshTextOne(fx: Fixed, op: Options, replay: SessionReplay?, store: Store?, chat: Chat, msgIdx: nat,
                      s: PlanSlot,
                      reps: seq<Replacement>, outcomes: seq<Outcome>, before: nat, after: nat, rejected: bool)
    returns (reps': seq<Replacement>, outcomes': seq<Outcome>, before': nat, after': nat, rejected': bool)
    requires Ready(op, replay, store) && Replayable(s) && s.kind != ImageData
    modifies if replay == null then {} else {replay.sess}, store
    ensures Ready(op, replay, store)
    ensures Acc(reps', outcomes', before', after', rejected', SessionOf(replay), StateOf(store))
         == FreshText(fx, op, replay != null, TurnOf(replay), chat, msgIdx,
                      Acc(reps, outcomes, before, after, rejected, old(SessionOf(replay)), old(StateOf(store))), s)
  {
    reps', outcomes', before', after', rejected' := reps, outcomes, before, after, rejected;
    var br := CompressBlock(fx, op, store, s.text, op.context(chat, s.toolUseID));
    outcomes' := outcomes + [Tried(msgIdx, s, br)];
    if br.action == RejectedTokens {
      rejected' := true;
    }
    if !br.accepted {
      return;
    }
    if store != null && br.cacheKey != "" {
      var ok := KeepIfResolved(op, replay, store, br.cacheKey, s.text, br.replacement);
      if !ok {
        outcomes' := outcomes + [Tried(msgIdx, s, br).(action := StoreUnresolvable)];
        return;
      }
    }
    reps' := reps + [Replacement(s.start, s.end, fx.encode(br.replacement))];
    before', after' := before + br.tokensBefore, after + br.tokensAfter;
  }

  /** One slot of the fresh pass. */
  method FreshOne(fx: Fixed, op: Options, replay: SessionReplay?, store: Store?, chat: Chat, msgIdx: nat,
                  claimed: set<int>, s: PlanSlot,
                  reps: seq<Replacement>, outcomes: seq<Outcome>, before: nat, after: nat, rejected: bool)
    returns (reps': seq<Replacement>, outcomes': seq<Outcome>, before': nat, after': nat, rejected': bool)
    requires Ready(op, replay, store)
    modifies if replay == null then {} else {replay.sess}, store
    ensures Ready(op, replay, store)
    ensures Acc(reps', outcomes', before', after', rejected', SessionOf(replay), StateOf(store))
         == FreshSlot(fx, op, replay != null, TurnOf(replay), chat, msgIdx, claimed,
                      Acc(reps, outcomes, before, after, rejected, old(SessionOf(replay)), old(StateOf(store))), s)
  {
    reps', outcomes', before', after', rejected' := reps, outcomes, before, after, rejected;
    if s.start in claimed {
      return;
    }
    match s.kind
    case HotZone => outcomes' := outcomes + [Note(msgIdx, s, SkippedHotZone)];
    case BelowThreshold => outcomes' := outcomes + [Note(msgIdx, s, SkippedBelowThreshold)];
    case Unreachable => outcomes' := outcomes + [Note(msgIdx, s, SkippedUnreachable)];
    case ImageData =>
      if !op.imageFit {
        outcomes' := outcomes + [Note(msgIdx, s, ImageDeclined)];
        return;
      }
      var fit := Image.FitImage(fx.codec, s.text, s.mediaType);
      if fit.Declined? {
        outcomes' := outcomes + [Note(msgIdx, s, ImageDeclined)];
        return;
      }
      outcomes' := outcomes + [Note(msgIdx, s, ImageResized).(tokensBefore := fit.before, tokensAfter := fit.after)];
      if replay != null {
        replay.Record(KeyOf(fx, s), fit.b64);
      }
      reps' := reps + [Replacement(s.start, s.end, fx.encode(fit.b64))];
      before', after' := before + fit.before, after + fit.after;
    case _ =>
      reps', outcomes', before', after', rejected' :=
        FreshTextOne(fx, op, replay, store, chat, msgIdx, s, reps, outcomes, before, after, rejected);
  }

  /** The fresh pass over one message; what replay claimed is skipped. */
  method CompressFresh(fx: Fixed, op: Options, replay: SessionReplay?, store: Store?, chat: Chat, msgIdx: nat,
                       slots: seq<PlanSlot>,
                       reps: seq<Replacement>, outcomes: seq<Outcome>, before: nat, after: nat)
    returns (reps': seq<Replacement>, outcomes': seq<Outcome>, before': nat, after': nat, rejected': bool)
    requires Ready(op, replay, store)
    modifies if replay == null then {} else {replay.sess}, store
    ensures Ready(op, replay, store)
    ensures Acc(reps', outcomes', before', after', rejected', SessionOf(replay), StateOf(store))
         == FreshSlots(fx, op, replay != null, TurnOf(replay), chat, msgIdx, Starts(reps),
                       Acc(reps, outcomes, before, after, false, old(SessionOf(replay)), old(StateOf(store))), slots)
  {
    reps', outcomes', before', after', rejected' := reps, outcomes, before, after, false;
    var claimed := set r | r in reps :: r.start;
    ghost var entry := Acc(reps, outcomes, before, after, false, SessionOf(replay), StateOf(store));
    for j := 0 to |slots|
      invariant Ready(op, replay, store)
      invariant Acc(reps', outcomes', before', after', rejected', SessionOf(replay), StateOf(store))
             == FreshSlots(fx, op, replay != null, TurnOf(replay), chat, msgIdx, claimed, entry, slots[..j])
    {
      assert slots[..j + 1][..j] == slots[..j];
      reps', outcomes', before', after', rejected' :=
        FreshOne(fx, op, replay, store, chat, msgIdx, claimed, slots[j], reps', outcomes', before', after', rejected');
    }
    assert slots[..|slots|] == slots;
  }

  /** Compresses the live zone of a request body; every failure mode forwards the
      original bytes. */
  method Dispatch(fx: Fixed, op: Options, replay: SessionReplay?, store: Store?, frozenCount: int, request: Request)
    returns (r: Result)
    requires Ready(op, replay, store)
    modifies if replay == null then {} else {replay.sess}, store
    ensures Ready(op, replay, store)
    ensures request.NotJson? ==> r == Passthrough(request.bytes, NotJSON, 0)
    ensures request.NoMessages? ==> r == Passthrough(request.bytes, NoMessageArray, 0)
    ensures !request.Conversation? ==>
            SessionOf(replay) == old(SessionOf(replay)) && StateOf(store) == old(StateOf(store))
    ensures request.Conversation? ==>
      var chat := request.chat;
      var floor := Floor(chat, frozenCount);
      var acc := Passes(fx, op, replay != null, TurnOf(replay), chat, floor, old(SessionOf(replay)),
                        old(StateOf(store)));
      r == ResultOf(chat, floor, acc) && SessionOf(replay) == acc.session && StateOf(store) == acc.store
  {
    if request.NotJson? {
      return Passthrough(request.bytes, NotJSON, 0);
    }
    if request.NoMessages? {
      return Passthrough(request.bytes, NoMessageArray, 0);
    }
    var chat := request.chat;
    var frozen: nat := if frozenCount < 0 then chat.cacheFloor else frozenCount;
    r := DispatchChat(fx, op, replay, store, frozen, chat);
  }

  /** Both passes over a conversation, and the answer. */
  method DispatchChat(fx: Fixed, op: Options, replay: SessionReplay?, store: Store?, frozen: nat, chat: Chat)
    returns (r: Result)
    requires Ready(op, replay, store)
    modifies if replay == null then {} else {replay.sess}, store
    ensures Ready(op, replay, store)
    ensures var acc := Passes(fx, op, replay != null, TurnOf(replay), chat, frozen, old(SessionOf(replay)),
                              old(StateOf(store)));
            r == ResultOf(chat, frozen, acc) && SessionOf(replay) == acc.session && StateOf(store) == acc.store
  {
    var reps, outcomes, before, after := ReplayAll(fx, op, replay, store, chat);
    var live := FindLatestUserMessage(chat, frozen);
    var slots := [];
    var rejected := false;
    if live.Some? {
      slots := PlanBlocks(chat, live.value);
      reps, outcomes, before, after, rejected :=
        CompressFresh(fx, op, replay, store, chat, live.value, slots, reps, outcomes, before, after);
    }
    ghost var acc := Acc(reps, outcomes, before, after, rejected, SessionOf(replay), StateOf(store));
    r := Answer(chat, frozen, live, slots, reps, outcomes, before, after, rejected, acc);
  }

  /** The result for what the passes accumulated: why nothing changed, or the splice. */
  method Answer(chat: Chat, frozen: nat, live: Option<nat>, slots: seq<PlanSlot>, reps: seq<Replacement>,
                outcomes: seq<Outcome>,
                before: nat, after: nat, rejected: bool, ghost acc: Acc)
    returns (r: Result)
    requires live == LatestUser(chat.messages, frozen) && slots == if live.Some? then PlanAt(chat, live.value) else []
    requires acc == Acc(reps, outcomes, before, after, rejected, acc.session, acc.store)
    ensures r == ResultOf(chat, frozen, acc)
  {
    if |reps| == 0 {
      if live.None? {
        return Passthrough(Render(chat), NoLiveZone, frozen);
      } else if |slots| == 0 {
        return Passthrough(Render(chat), NoCandidates, frozen);
      }
      var reason := NoCandidates;
      if rejected {
        reason := AllRejected;
      }
      return Result(Render(chat), false, reason, frozen, [], outcomes, 0, 0);
    }
    var out, ranges := ApplyReplacements(Render(chat), reps);
    return Result(out, true, Ok, frozen, ranges, outcomes, before, after);
  }
}
