/** Where image keys and text keys meet: the domain prefix of an image's key is not enough. */
module SharedKeys {

  import opened Common
  import opened Splice
  import opened Marker
  import opened Replay
  import opened LiveZone
  import opened BodyLayout
  import opened PrefixStability
  import opened ReplayRuns
  import opened DispatchSafety
  import opened StableRuns
  import Image
  import Sample = UnsteadyExample

  /** The digest tells these payloads apart. */
  ghost predicate TellsApart(fx: Fixed, payloads: set<string>) {
    forall a, b :: a in payloads && b in payloads && fx.computeKey(a) == fx.computeKey(b) ==> a == b
  }

  /** A text slot has an image slot's key exactly when it spells the image's payload out. */
  lemma {:induction false} KeysMeetIff(fx: Fixed, payloads: set<string>, s: PlanSlot, p: PlanSlot)
    requires IsText(s) && p.kind == ImageData && TellsApart(fx, payloads)
    requires s.text in payloads && ImagePayload(p.mediaType, p.text) in payloads
    ensures KeyOf(fx, s) == KeyOf(fx, p) <==> s.text == ImagePayload(p.mediaType, p.text)
  {
  }

  lemma {:induction false} CutAtZero(a: string, b: string, c: string, d: string)
    requires '\0' !in a && '\0' !in c && a + ("\0" + b) == c + ("\0" + d)
    ensures a == c && b == d
  {
    var s := a + ("\0" + b);
    assert s[|a|] == '\0' && s[|c|] == '\0';
    assert |a| == |c|;
    assert s[..|a|] == a && s[..|c|] == c;
    assert s[|a| + 1..] == b && s[|c| + 1..] == d;
  }

  /** Two images are hashed alike only when media type and base64 are the same, as a
      media type holds no zero character. */
  lemma {:induction false} PayloadsDiffer(m: string, b64: string, m': string, b64': string)
    requires '\0' !in m && '\0' !in m'
    ensures ImagePayload(m, b64) == ImagePayload(m', b64') <==> m == m' && b64 == b64'
  {
    var domain := "hr-image\0";
    var p, p' := ImagePayload(m, b64), ImagePayload(m', b64');
    assert p == domain + (m + ("\0" + b64)) && p' == domain + (m' + ("\0" + b64'));
    if p == p' {
      assert p[|domain|..] == m + ("\0" + b64) && p'[|domain|..] == m' + ("\0" + b64');
      CutAtZero(m, b64, m', b64');
    }
  }

  /** Once an image is recorded, a text that spells its payload goes out as the image's
      recorded base64, in whatever message it stands. */
  lemma {:induction false} SpeltPayloadIsReplaced(fx: Fixed, session: Session, t: TurnInput, i: nat, s: PlanSlot,
                                                  p: PlanSlot)
    requires Calm(fx, session, t) && IsPlanned(t.chat, i, s) && IsText(s)
    requires p.kind == ImageData && s.text == ImagePayload(p.mediaType, p.text)
    requires KeyOf(fx, p) in Opening(session, t).blocks
    ensures RepAt(TurnAcc(fx, session, t).reps, s.start)
         == Some(fx.encode(Opening(session, t).blocks[KeyOf(fx, p)].text))
  {
    KeysMeetIff(fx, {s.text}, s, p);
    KnownSlot(fx, session, t, i, s);
  }

  // ---- a run in which it happens ----

  const B64: string := Sample.Repeated('A', BLOCK_BYTE_THRESHOLD)
  const PNG := "image/png"
  const SMALL := "QUFB"

  function Payload64(): string { ImagePayload(PNG, B64) }

  const SQUARE := Image.Size(1600, 1600)

  const CODEC := Image.Codec(s => if s == B64 then Image.Readable("png", SQUARE) else Image.Unreadable, (s, z) => SMALL)

  const FIXED := Fixed(t => if t == Payload64() then Sample.LONG_KEY else Sample.OTHER_KEY, t => Sample.MD5_KEY,
                       Sample.Quoted, t => |t|, CODEC)

  const OPTIONS := Options(None, (c, id) => "", true, (n, k) => false, true)

  const PICTURE := Slot(Block(0, -1, ImageType, false, "", PNG, Some(Literal(Sample.Quoted(B64), B64))))

  function Spelling(): Part {
    Slot(Block(0, -1, TextType, false, "", "", Some(Literal(Sample.Quoted(Payload64()), Payload64()))))
  }

  function Shows(): Message { Message(true, false, [PICTURE]) }

  function Spells(): Message { Message(true, false, [Spelling()]) }

  function First(): TurnInput { TurnInput(OPTIONS, Chat("{", [Shows()], "}", 0), NO_STORE) }

  function Second(): TurnInput { TurnInput(OPTIONS, Chat("{", [Shows(), Spells()], "}", 0), NO_STORE) }

  /** The square resizes: it fits the high-resolution tier as it is, not the standard one. */
  lemma {:induction false} SquareShrinks()
    ensures Image.FitImage(CODEC, B64, PNG).Fitted? && Image.FitImage(CODEC, B64, PNG).b64 == SMALL
  {
    var target := Image.Resized(SQUARE, Image.STANDARD_EDGE, Image.STANDARD_TOKENS);
    assert Image.CountImageTokens(SQUARE) == 3364;
    Image.BestEdgeIsLargest(SQUARE, Image.STANDARD_EDGE, Image.STANDARD_EDGE, Image.STANDARD_TOKENS);
    Image.DegeneratesFrom3136(SQUARE);
    assert target.w > 0 && target.h > 0;
    assert Image.CountImageTokens(target) <= Image.STANDARD_TOKENS;
    assert |B64| == BLOCK_BYTE_THRESHOLD;
  }

  lemma {:induction false} PartsAreEligible()
    ensures Eligible(false, PICTURE) && Eligible(false, Spelling())
    ensures PlanOne(false, PICTURE.block, 0).kind == ImageData
    ensures PlanOne(false, Spelling().block, 0).kind == Compressible
  {
    assert |B64| == BLOCK_BYTE_THRESHOLD;
    assert |Payload64()| > BLOCK_BYTE_THRESHOLD;
  }

  lemma {:induction false} PictureOnly(chat: Chat, i: nat, s: PlanSlot)
    requires i < |chat.messages| && chat.messages[i] == Shows() && s in PlanAt(chat, i)
    ensures s == PlanOne(false, PICTURE.block, MessageStart(chat, i)) && s.kind == ImageData && s.text == B64
    ensures s.mediaType == PNG
  {
    var offset := MessageStart(chat, i);
    PartsAreEligible();
    assert Shows().parts[1..] == [];
    assert Plan(false, Shows().parts, offset) == [PlanOne(false, PICTURE.block, offset)];
  }

  lemma {:induction false} SpellingOnly(chat: Chat, i: nat, s: PlanSlot)
    requires i < |chat.messages| && chat.messages[i] == Spells() && s in PlanAt(chat, i)
    ensures s == PlanOne(false, Spelling().block, MessageStart(chat, i)) && s.kind == Compressible
    ensures s.text == Payload64()
  {
    var offset := MessageStart(chat, i);
    PartsAreEligible();
    assert Spells().parts[1..] == [];
    assert Plan(false, Spells().parts, offset) == [PlanOne(false, Spelling().block, offset)];
  }

  const PICTURES := {Original(true, PNG, B64)}

  lemma {:induction false} FirstInputs()
    ensures Digests(FIXED, PICTURES) && Inputs(FIXED, PICTURES, First()) && First().chat.messages[0] == Shows()
  {
    Sample.KeysAreHashes();
    PartsAreEligible();
    forall i, s | 0 <= i < |First().chat.messages| && s in PlanAt(First().chat, i) && Replayable(s)
      ensures OriginalOf(s) in PICTURES
    {
      PictureOnly(First().chat, i, s);
    }
    forall c | Sample.Quoted(B64) == FIXED.encode(c) ensures B64 == c {
      assert Sample.Quoted(B64)[1..|Sample.Quoted(B64)| - 1] == B64 && Sample.Quoted(c)[1..|Sample.Quoted(c)| - 1] == c;
    }
    assert LegiblePart(FIXED, false, PICTURE);
  }

  /** The first turn records the resized image under the shared key. */
  lemma {:induction false} FirstRecords()
    ensures var mid := TurnAcc(FIXED, FRESH, First()).session;
            && Sample.LONG_KEY in mid.blocks && mid.blocks[Sample.LONG_KEY].text == SMALL
            && mid.blocks[Sample.LONG_KEY].seen == 1 && mid.turn == 1
            && forall k :: k in mid.blocks ==> k == Sample.LONG_KEY
  {
    var t := First();
    FirstInputs();
    TurnIsCalm(FIXED, PICTURES, FRESH, t);
    TurnReps(FIXED, FRESH, t);
    var s := PlanOne(false, PICTURE.block, MessageStart(t.chat, 0));
    PlanHas(false, Shows().parts, MessageStart(t.chat, 0), 0);
    assert RenderParts(Shows().parts[..0]) == "";
    PictureOnly(t.chat, 0, s);
    SquareShrinks();
    assert Live(FRESH, t) == Some(0);
    assert Rewrites(FIXED, FRESH, t, 0, s);
    RewrittenSlot(FIXED, PICTURES, FRESH, t, 0, s);
    forall k | k in TurnAcc(FIXED, FRESH, t).session.blocks
      ensures k == Sample.LONG_KEY && TurnAcc(FIXED, FRESH, t).session.blocks[k].text == SMALL
    {
      var i, q := LearntFrom(FIXED, PICTURES, FRESH, t, k);
      PictureOnly(t.chat, i, q);
    }
    LearntThisTurn(FIXED, FRESH, t, Sample.LONG_KEY);
  }

  /** What the second conversation may hold, digests shared or not. */
  const BOTH := {Original(true, PNG, B64), Original(false, "", ImagePayload(PNG, B64))}

  lemma {:induction false} SecondOriginals()
    ensures OriginalsOf(Second().chat, BOTH) && WellFormed(Second().chat) && HoldsDigests(FIXED, OPTIONS, BOTH)
  {
    var t := Second();
    PartsAreEligible();
    forall i, s | 0 <= i < |t.chat.messages| && s in PlanAt(t.chat, i) && Replayable(s) ensures OriginalOf(s) in BOTH {
      assert t.chat.messages[i] == Shows() || t.chat.messages[i] == Spells();
      if t.chat.messages[i] == Shows() {
        PictureOnly(t.chat, i, s);
      } else {
        SpellingOnly(t.chat, i, s);
      }
    }
  }

  lemma {:induction false} SecondNames()
    ensures OwnNames(FIXED, BOTH, TurnAcc(FIXED, FRESH, First()).session.blocks)
  {
    FirstRecords();
    Sample.ShortNamesNothing(SMALL);
  }

  lemma {:induction false} SecondIsCalm()
    ensures Calm(FIXED, TurnAcc(FIXED, FRESH, First()).session, Second())
  {
    var mid, t := TurnAcc(FIXED, FRESH, First()).session, Second();
    SecondOriginals();
    SecondNames();
    OpeningKeepsNames(FIXED, BOTH, mid, t);
    var o := Opening(mid, t);
    ReplayMessagesAnswer(FIXED, t.op, BOTH, o.turn, t.chat, Start(o, t.store), |t.chat.messages|);
    assert KeysNonEmpty(FIXED);
  }

  /** A user shows an image and then quotes its payload: the quotation goes out as the
      base64 of the resized image. */
  lemma {:induction false} QuotationIsReplaced()
    ensures var mid := TurnAcc(FIXED, FRESH, First()).session;
            && Sent(FIXED, mid, Second(), 1, 0) == Sample.Quoted(SMALL)
            && PartBytes(Second().chat.messages[1].parts[0]) == Sample.Quoted(Payload64()) != Sample.Quoted(SMALL)
  {
    var mid, t := TurnAcc(FIXED, FRESH, First()).session, Second();
    FirstRecords();
    SecondIsCalm();
    PartsAreEligible();
    assert t.chat.messages[1] == Spells() && Spells().parts[0] == Spelling();
    SlotOfEligible(FIXED, t.chat, 1, 0);
    var s := SlotOf(t.chat, 1, 0);
    SpellingOnly(t.chat, 1, s);
    SpeltPayloadIsReplaced(FIXED, mid, t, 1, s, PlanOne(false, PICTURE.block, 0));
    SentIs(FIXED, mid, t, 1, 0);
    assert |Payload64()| > |SMALL|;
    assert |Sample.Quoted(Payload64())| != |Sample.Quoted(SMALL)|;
  }
}
