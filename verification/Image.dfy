/** Vision-tier arithmetic: internal/livezone/image.go.

    The size search and its price, and fitting a payload. Ratios are exact fractions. */
module Image {

  datatype Size = Size(w: nat, h: nat)

  const PATCH: nat := 28
  const STANDARD_EDGE: nat := 1568
  const STANDARD_TOKENS: nat := 1568
  const HIGH_RES_EDGE: nat := 2576
  const HIGH_RES_TOKENS: nat := 4784
  const MAX_PIXELS: nat := 100_000_000

  function CeilDiv(a: nat, b: nat): nat
    requires b > 0
  {
    (a + b - 1) / b
  }

  function CountImageTokens(s: Size): nat { CeilDiv(s.w, PATCH) * CeilDiv(s.h, PATCH) }

  /** Round p / q to the nearest integer, halves to even. */
  function RoundHalfEven(p: nat, q: nat): nat
    requires q > 0
  {
    if 2 * (p % q) < q || (2 * (p % q) == q && p / q % 2 == 0) then p / q else p / q + 1
  }

  predicate Fits(s: Size, maxEdge: nat, maxTokens: nat) {
    s.w <= maxEdge && s.h <= maxEdge && CountImageTokens(s) <= maxTokens
  }

  /** The aspect-preserving size whose long edge is `edge`. */
  function Scaled(s: Size, edge: nat): Size
    requires s.w > 0 && s.h > 0
  {
    if s.w > s.h then Size(edge, RoundHalfEven(edge * s.h, s.w)) else Size(RoundHalfEven(edge * s.w, s.h), edge)
  }

  /** Reference search: the largest edge up to `limit` whose scaled size fits, 0 if none. */
  function BestEdge(s: Size, limit: nat, maxEdge: nat, maxTokens: nat): nat
    requires s.w > 0 && s.h > 0
  {
    if limit == 0 || Fits(Scaled(s, limit), maxEdge, maxTokens) then limit
    else BestEdge(s, limit - 1, maxEdge, maxTokens)
  }

  function Resized(s: Size, maxEdge: nat, maxTokens: nat): Size
    requires s.w > 0 && s.h > 0
  {
    if Fits(s, maxEdge, maxTokens) then s
    else
      var best := BestEdge(s, maxEdge, maxEdge, maxTokens);
      if best == 0 then Size(0, 0) else Scaled(s, best)
  }

  // ---- monotonicity ----

  lemma {:induction false} AtLeastOnce(x: int, q: nat)
    requires x >= 1
    ensures x * q >= q
  {
  }

  lemma {:induction false} DivModUnique(a: nat, q: nat, d: nat, r: nat)
    requires q > 0 && a == d * q + r && r < q
    ensures a / q == d && a % q == r
  {
    var d', r' := a / q, a % q;
    assert a == d' * q + r';
    assert (d - d') * q == r' - r;
    if d > d' {
      AtLeastOnce(d - d', q);
    } else if d < d' {
      AtLeastOnce(d' - d, q);
    }
  }

  lemma {:induction false} DivMonotone(p: nat, p': nat, q: nat)
    requires q > 0 && p <= p'
    ensures p / q <= p' / q
  {
    var d, d' := p / q, p' / q;
    assert p == d * q + p % q && p' == d' * q + p' % q;
    assert (d - d') * q <= p' % q - p % q;
    if d > d' {
      AtLeastOnce(d - d', q);
    }
  }

  lemma {:induction false} RoundMonotone(p: nat, p': nat, q: nat)
    requires q > 0 && p <= p'
    ensures RoundHalfEven(p, q) <= RoundHalfEven(p', q)
  {
    DivMonotone(p, p', q);
    if p / q == p' / q {
      assert p % q <= p' % q by {
        assert p == p / q * q + p % q && p' == p' / q * q + p' % q;
      }
    }
  }

  lemma {:induction false} RoundAtMost(p: nat, q: nat, m: nat)
    requires q > 0 && p <= m * q
    ensures RoundHalfEven(p, q) <= m
  {
    RoundMonotone(p, m * q, q);
    DivModUnique(m * q, q, m, 0);
  }

  lemma {:induction false} ScaledMonotone(s: Size, a: nat, b: nat)
    requires s.w > 0 && s.h > 0 && a <= b
    ensures Scaled(s, a).w <= Scaled(s, b).w && Scaled(s, a).h <= Scaled(s, b).h
  {
    assert a * s.h <= b * s.h && a * s.w <= b * s.w;
    RoundMonotone(a * s.h, b * s.h, s.w);
    RoundMonotone(a * s.w, b * s.w, s.h);
  }

  lemma {:induction false} TokensMonotone(s: Size, t: Size)
    requires s.w <= t.w && s.h <= t.h
    ensures CountImageTokens(s) <= CountImageTokens(t)
  {
    DivMonotone(s.w + PATCH - 1, t.w + PATCH - 1, PATCH);
    DivMonotone(s.h + PATCH - 1, t.h + PATCH - 1, PATCH);
    MulMonotone(CeilDiv(s.w, PATCH), CeilDiv(s.h, PATCH), CeilDiv(t.w, PATCH), CeilDiv(t.h, PATCH));
  }

  lemma {:induction false} MulMonotone(a: nat, b: nat, c: nat, d: nat)
    requires a <= c && b <= d
    ensures a * b <= c * d
  {
    assert a * b <= c * b <= c * d;
  }

  /** The sizes that fit are exactly those up to some long edge. */
  lemma {:induction false} FittingIsDownClosed(s: Size, a: nat, b: nat, maxEdge: nat, maxTokens: nat)
    requires s.w > 0 && s.h > 0 && a <= b && Fits(Scaled(s, b), maxEdge, maxTokens)
    ensures Fits(Scaled(s, a), maxEdge, maxTokens)
  {
    ScaledMonotone(s, a, b);
    TokensMonotone(Scaled(s, a), Scaled(s, b));
  }

  /** The reference search finds the largest fitting edge. */
  lemma {:induction false} BestEdgeIsLargest(s: Size, limit: nat, maxEdge: nat, maxTokens: nat)
    requires s.w > 0 && s.h > 0
    ensures var best := BestEdge(s, limit, maxEdge, maxTokens);
            && best <= limit
            && (best > 0 ==> Fits(Scaled(s, best), maxEdge, maxTokens))
            && forall e :: best < e <= limit ==> !Fits(Scaled(s, e), maxEdge, maxTokens)
  {
    if limit > 0 && !Fits(Scaled(s, limit), maxEdge, maxTokens) {
      BestEdgeIsLargest(s, limit - 1, maxEdge, maxTokens);
    }
  }

  lemma {:induction false} BestEdgeIs(s: Size, best: nat, maxEdge: nat, maxTokens: nat)
    requires s.w > 0 && s.h > 0 && best <= maxEdge
    requires best > 0 ==> Fits(Scaled(s, best), maxEdge, maxTokens)
    requires forall e :: best < e <= maxEdge ==> !Fits(Scaled(s, e), maxEdge, maxTokens)
    ensures BestEdge(s, maxEdge, maxEdge, maxTokens) == best
  {
    BestEdgeIsLargest(s, maxEdge, maxEdge, maxTokens);
  }

  /** Everything below low fits, nothing above high does, t is the best found. */
  ghost predicate Narrowed(s: Size, low: int, high: int, t: Size, maxEdge: nat, maxTokens: nat)
    requires s.w > 0 && s.h > 0
  {
    && 1 <= low <= high + 1 <= maxEdge + 1
    && t == (if low == 1 then Size(0, 0) else Scaled(s, low - 1))
    && (low > 1 ==> Fits(Scaled(s, low - 1), maxEdge, maxTokens))
    && (forall e :: high < e <= maxEdge ==> !Fits(Scaled(s, e), maxEdge, maxTokens))
  }

  lemma {:induction false} SearchDone(s: Size, low: int, high: int, t: Size, maxEdge: nat, maxTokens: nat)
    requires s.w > 0 && s.h > 0 && !Fits(s, maxEdge, maxTokens)
    requires Narrowed(s, low, high, t, maxEdge, maxTokens) && low > high
    ensures t == Resized(s, maxEdge, maxTokens)
  {
    BestEdgeIs(s, low - 1, maxEdge, maxTokens);
  }

  method SearchLandscape(width: nat, height: nat, maxEdge: nat, maxTokens: nat)
    returns (targetWidth: nat, targetHeight: nat)
    requires width > height > 0 && !Fits(Size(width, height), maxEdge, maxTokens)
    ensures Size(targetWidth, targetHeight) == Resized(Size(width, height), maxEdge, maxTokens)
  {
    ghost var s := Size(width, height);
    targetWidth, targetHeight := 0, 0;
    var low, high: int := 1, maxEdge;
    while low <= high
      invariant Narrowed(s, low, high, Size(targetWidth, targetHeight), maxEdge, maxTokens)
      decreases high - low
    {
      var mid := (low + high) / 2;
      var tw := mid;
      var th := RoundHalfEven(tw * height, width);
      if tw <= maxEdge && th <= maxEdge && CountImageTokens(Size(tw, th)) <= maxTokens {
        NarrowUp(s, low, high, Size(targetWidth, targetHeight), mid, maxEdge, maxTokens);
        targetWidth, targetHeight := tw, th;
        low := mid + 1;
      } else {
        NarrowDown(s, low, high, Size(targetWidth, targetHeight), mid, maxEdge, maxTokens);
        high := mid - 1;
      }
    }
    SearchDone(s, low, high, Size(targetWidth, targetHeight), maxEdge, maxTokens);
  }

  method SearchPortrait(width: nat, height: nat, maxEdge: nat, maxTokens: nat)
    returns (targetWidth: nat, targetHeight: nat)
    requires height >= width > 0 && !Fits(Size(width, height), maxEdge, maxTokens)
    ensures Size(targetWidth, targetHeight) == Resized(Size(width, height), maxEdge, maxTokens)
  {
    ghost var s := Size(width, height);
    targetWidth, targetHeight := 0, 0;
    var low, high: int := 1, maxEdge;
    while low <= high
      invariant Narrowed(s, low, high, Size(targetWidth, targetHeight), maxEdge, maxTokens)
      decreases high - low
    {
      var mid := (low + high) / 2;
      var th := mid;
      var tw := RoundHalfEven(th * width, height);
      if tw <= maxEdge && th <= maxEdge && CountImageTokens(Size(tw, th)) <= maxTokens {
        NarrowUp(s, low, high, Size(targetWidth, targetHeight), mid, maxEdge, maxTokens);
        targetWidth, targetHeight := tw, th;
        low := mid + 1;
      } else {
        NarrowDown(s, low, high, Size(targetWidth, targetHeight), mid, maxEdge, maxTokens);
        high := mid - 1;
      }
    }
    SearchDone(s, low, high, Size(targetWidth, targetHeight), maxEdge, maxTokens);
  }

  /** The binary search agrees with the reference search. */
  method ResizedSize(width: nat, height: nat, maxEdge: nat, maxTokens: nat)
    returns (targetWidth: nat, targetHeight: nat)
    requires width > 0 && height > 0
    ensures Size(targetWidth, targetHeight) == Resized(Size(width, height), maxEdge, maxTokens)
  {
    if width <= maxEdge && height <= maxEdge && CountImageTokens(Size(width, height)) <= maxTokens {
      return width, height;
    }
    if width > height {
      targetWidth, targetHeight := SearchLandscape(width, height, maxEdge, maxTokens);
    } else {
      targetWidth, targetHeight := SearchPortrait(width, height, maxEdge, maxTokens);
    }
  }

  lemma {:induction false} NarrowUp(s: Size, low: int, high: int, t: Size, mid: nat, maxEdge: nat, maxTokens: nat)
    requires s.w > 0 && s.h > 0 && Narrowed(s, low, high, t, maxEdge, maxTokens)
    requires low <= mid <= high && Fits(Scaled(s, mid), maxEdge, maxTokens)
    ensures Narrowed(s, mid + 1, high, Scaled(s, mid), maxEdge, maxTokens)
  {
  }

  lemma {:induction false} NarrowDown(s: Size, low: int, high: int, t: Size, mid: nat, maxEdge: nat, maxTokens: nat)
    requires s.w > 0 && s.h > 0 && Narrowed(s, low, high, t, maxEdge, maxTokens)
    requires low <= mid <= high && !Fits(Scaled(s, mid), maxEdge, maxTokens)
    ensures Narrowed(s, low, mid - 1, t, maxEdge, maxTokens)
  {
    AllLargerFail(s, mid, maxEdge, maxTokens);
  }

  lemma {:induction false} AllLargerFail(s: Size, mid: nat, maxEdge: nat, maxTokens: nat)
    requires s.w > 0 && s.h > 0 && !Fits(Scaled(s, mid), maxEdge, maxTokens)
    ensures forall e :: mid <= e <= maxEdge ==> !Fits(Scaled(s, e), maxEdge, maxTokens)
  {
    forall e | mid <= e <= maxEdge ensures !Fits(Scaled(s, e), maxEdge, maxTokens) {
      if Fits(Scaled(s, e), maxEdge, maxTokens) {
        FittingIsDownClosed(s, mid, e, maxEdge, maxTokens);
      }
    }
  }

  // ---- what the tiers promise ----

  lemma {:induction false} ScaledShrinks(s: Size, edge: nat)
    requires s.w > 0 && s.h > 0 && edge <= if s.w > s.h then s.w else s.h
    ensures Scaled(s, edge).w <= s.w && Scaled(s, edge).h <= s.h
  {
    if s.w > s.h {
      assert edge * s.h <= s.w * s.h == s.h * s.w;
      RoundAtMost(edge * s.h, s.w, s.h);
    } else {
      assert edge * s.w <= s.h * s.w == s.w * s.h;
      RoundAtMost(edge * s.w, s.h, s.w);
    }
  }

  lemma {:induction false} ScaledToItself(s: Size)
    requires s.w > 0 && s.h > 0
    ensures Scaled(s, if s.w > s.h then s.w else s.h) == s
  {
    assert s.w * s.h == s.h * s.w;
    DivModUnique(s.w * s.h, s.w, s.h, 0);
    DivModUnique(s.h * s.w, s.h, s.w, 0);
  }

  /** The search never upscales either axis, although its range can reach past
      the image's own long edge. */
  lemma {:induction false} NeverUpscales(s: Size, maxEdge: nat, maxTokens: nat)
    requires s.w > 0 && s.h > 0
    ensures Resized(s, maxEdge, maxTokens).w <= s.w && Resized(s, maxEdge, maxTokens).h <= s.h
  {
    var best := BestEdge(s, maxEdge, maxEdge, maxTokens);
    BestEdgeIsLargest(s, maxEdge, maxEdge, maxTokens);
    if !Fits(s, maxEdge, maxTokens) && best > 0 {
      var long := if s.w > s.h then s.w else s.h;
      if best > long {
        FittingIsDownClosed(s, long, best, maxEdge, maxTokens);
        ScaledToItself(s);
        assert false;
      }
      ScaledShrinks(s, best);
    }
  }

  /** A tighter tier never costs more tokens than a looser one. */
  lemma {:induction false} TighterTierIsCheaper(s: Size, edge: nat, tokens: nat, edge': nat, tokens': nat)
    requires s.w > 0 && s.h > 0 && edge <= edge' && tokens <= tokens'
    ensures CountImageTokens(Resized(s, edge, tokens)) <= CountImageTokens(Resized(s, edge', tokens'))
  {
    var best := BestEdge(s, edge, edge, tokens);
    var best' := BestEdge(s, edge', edge', tokens');
    BestEdgeIsLargest(s, edge, edge, tokens);
    BestEdgeIsLargest(s, edge', edge', tokens');
    if Fits(s, edge', tokens') {
      NeverUpscales(s, edge, tokens);
      TokensMonotone(Resized(s, edge, tokens), s);
    } else if best > 0 {
      assert best <= best' by {
        if best' < best {
          assert Fits(Scaled(s, best), edge', tokens');
        }
      }
      ScaledMonotone(s, best, best');
      TokensMonotone(Scaled(s, best), Scaled(s, best'));
    } else {
      assert CountImageTokens(Size(0, 0)) == 0;
    }
  }

  /** A resized image is left alone by every looser tier, so its price there is
      the price it was resized to. */
  lemma {:induction false} ResizedIsStable(s: Size, edge: nat, tokens: nat, edge': nat, tokens': nat)
    requires s.w > 0 && s.h > 0 && edge <= edge' && tokens <= tokens'
    requires Resized(s, edge, tokens).w > 0 && Resized(s, edge, tokens).h > 0
    ensures Resized(Resized(s, edge, tokens), edge', tokens') == Resized(s, edge, tokens)
  {
    BestEdgeIsLargest(s, edge, edge, tokens);
  }

  /** The standard tier degenerates exactly from 3136:1 on, either way round and that
      ratio included: half a pixel rounds to the even zero. */
  lemma {:induction false} DegeneratesFrom3136(s: Size)
    requires s.w > 0 && s.h > 0 && !Fits(s, STANDARD_EDGE, STANDARD_TOKENS)
    ensures var t := Resized(s, STANDARD_EDGE, STANDARD_TOKENS);
            t.w == 0 || t.h == 0 <==> s.w >= 3136 * s.h || s.h >= 3136 * s.w
  {
    var best := StandardEdge(s);
    if s.w > s.h {
      LandscapeDegenerates(s);
    } else {
      PortraitDegenerates(s);
    }
  }

  /** The edge an image is resized to by the standard tier, and why not a longer one. */
  lemma {:induction false} StandardEdge(s: Size) returns (best: nat)
    requires s.w > 0 && s.h > 0 && !Fits(s, STANDARD_EDGE, STANDARD_TOKENS)
    ensures Resized(s, STANDARD_EDGE, STANDARD_TOKENS) == if best == 0 then Size(0, 0) else Scaled(s, best)
    ensures best == STANDARD_EDGE
         || (best < STANDARD_EDGE && !Fits(Scaled(s, best + 1), STANDARD_EDGE, STANDARD_TOKENS))
    ensures Fits(Scaled(s, STANDARD_EDGE), STANDARD_EDGE, STANDARD_TOKENS) ==> best == STANDARD_EDGE
  {
    best := BestEdge(s, STANDARD_EDGE, STANDARD_EDGE, STANDARD_TOKENS);
    BestEdgeIsLargest(s, STANDARD_EDGE, STANDARD_EDGE, STANDARD_TOKENS);
  }

  lemma {:induction false} LandscapeDegenerates(s: Size)
    requires s.w > s.h > 0 && !Fits(s, STANDARD_EDGE, STANDARD_TOKENS)
    ensures Resized(s, STANDARD_EDGE, STANDARD_TOKENS).h == 0 <==> s.w >= 3136 * s.h
  {
    var best := StandardEdge(s);
    WholeEdge(s.h, s.w);
    if s.w >= 3136 * s.h {
      ThinFits(s, STANDARD_EDGE);
    } else if best < STANDARD_EDGE {
      NextWouldFit(s, best);
    }
  }

  lemma {:induction false} PortraitDegenerates(s: Size)
    requires s.h >= s.w > 0 && !Fits(s, STANDARD_EDGE, STANDARD_TOKENS)
    ensures Resized(s, STANDARD_EDGE, STANDARD_TOKENS).w == 0 <==> s.h >= 3136 * s.w
  {
    var best := StandardEdge(s);
    WholeEdge(s.w, s.h);
    if s.h >= 3136 * s.w {
      ThinFits(s, STANDARD_EDGE);
    } else if best < STANDARD_EDGE {
      NextWouldFit(s, best);
    }
  }

  /** At the tier's whole edge the short axis vanishes from 3136:1 on. */
  lemma {:induction false} WholeEdge(short: nat, long: nat)
    requires long > 0
    ensures RoundHalfEven(STANDARD_EDGE * short, long) == 0 <==> long >= 3136 * short
  {
    RoundsToZero(STANDARD_EDGE * short, long);
    assert 2 * (STANDARD_EDGE * short) == 3136 * short;
  }

  /** An edge with an empty short axis is never the largest that fits. */
  lemma {:induction false} NextWouldFit(s: Size, edge: nat)
    requires s.w > 0 && s.h > 0 && edge < STANDARD_EDGE
    requires !Fits(Scaled(s, edge + 1), STANDARD_EDGE, STANDARD_TOKENS)
    ensures (if s.w > s.h then Scaled(s, edge).h else Scaled(s, edge).w) > 0
  {
    var short, long := if s.w > s.h then s.h else s.w, if s.w > s.h then s.w else s.h;
    RoundsToZero(edge * short, long);
    if 2 * (edge * short) <= long {
      NextEdgeIsThin(edge, short, long);
      ThinFits(s, edge + 1);
    }
  }

  /** A scaled size of at most two pixels across fits the standard tier. */
  lemma {:induction false} ThinFits(s: Size, edge: nat)
    requires s.w > 0 && s.h > 0 && edge <= STANDARD_EDGE
    requires (if s.w > s.h then Scaled(s, edge).h else Scaled(s, edge).w) <= 2
    ensures Fits(Scaled(s, edge), STANDARD_EDGE, STANDARD_TOKENS)
  {
    if s.w > s.h {
      TokensMonotone(Scaled(s, edge), Size(STANDARD_EDGE, 2));
      assert CountImageTokens(Size(STANDARD_EDGE, 2)) == 56;
    } else {
      TokensMonotone(Scaled(s, edge), Size(2, STANDARD_EDGE));
      assert CountImageTokens(Size(2, STANDARD_EDGE)) == 56;
    }
  }

  lemma {:induction false} RoundsToZero(p: nat, q: nat)
    requires q > 0
    ensures RoundHalfEven(p, q) == 0 <==> 2 * p <= q
  {
    if p < q {
      DivModUnique(p, q, 0, p);
    } else {
      DivMonotone(q, p, q);
      DivModUnique(q, q, 1, 0);
    }
  }

  /** One more pixel on the long edge keeps the short one within two. */
  lemma {:induction false} NextEdgeIsThin(best: nat, short: nat, long: nat)
    requires 0 < short <= long && 2 * (best * short) <= long
    ensures RoundHalfEven((best + 1) * short, long) <= 2
  {
    assert (best + 1) * short == best * short + short;
    RoundAtMost((best + 1) * short, long, 2);
  }

  // ---- fitting one image to the standard tier ----

  /** What DecodeConfig reports for a base64 payload. */
  datatype Config = Unreadable | Readable(format: string, size: Size)

  /** The image libraries: reading a payload's configuration, and decoding,
      downsampling and re-encoding it at a given size ("" when either fails). */
  datatype Codec = Codec(config: string -> Config, reencode: (string, Size) -> string)

  datatype Fit = Declined | Fitted(b64: string, before: nat, after: nat)

  /** A re-encoded payload reads back at the size it was encoded at. */
  ghost predicate Faithful(codec: Codec) {
    forall b64, s :: codec.reencode(b64, s) != "" ==>
      && codec.config(codec.reencode(b64, s)).Readable?
      && codec.config(codec.reencode(b64, s)).size == s
  }

  predicate MediaMatches(mediaType: string, format: string) {
    || (mediaType == "image/png" && format != "jpeg")
    || (mediaType == "image/jpeg" && format != "png")
  }

  /** An image with an empty axis resizes to an empty axis, so it is declined. */
  function FitImage(codec: Codec, b64: string, mediaType: string): Fit {
    if mediaType != "image/png" && mediaType != "image/jpeg" then Declined
    else match codec.config(b64)
      case Unreadable => Declined
      case Readable(format, size) =>
        if !MediaMatches(mediaType, format) || size.w * size.h > MAX_PIXELS || size.w == 0 || size.h == 0 then Declined
        else
          var target := Resized(size, STANDARD_EDGE, STANDARD_TOKENS);
          var before := CountImageTokens(Resized(size, HIGH_RES_EDGE, HIGH_RES_TOKENS));
          var after := CountImageTokens(target);
          if target.w < 1 || target.h < 1 || target == size || after >= before then Declined
          else
            var encoded := codec.reencode(b64, target);
            if encoded == "" || |encoded| >= |b64| then Declined else Fitted(encoded, before, after)
  }

  /** Visual tokens of a payload at the high-resolution tier, 0 when unreadable. */
  function VisualTokens(codec: Codec, b64: string): nat {
    match codec.config(b64)
    case Unreadable => 0
    case Readable(_, size) =>
      if size.w == 0 || size.h == 0 then 0 else CountImageTokens(Resized(size, HIGH_RES_EDGE, HIGH_RES_TOKENS))
  }

  /** The price fitting reports is the price replay will count later, and it falls. */
  lemma {:induction false} FittingIsPricedAsReplay(codec: Codec, b64: string, mediaType: string)
    requires Faithful(codec) && FitImage(codec, b64, mediaType).Fitted?
    ensures var f := FitImage(codec, b64, mediaType);
            && f.before == VisualTokens(codec, b64) && f.after == VisualTokens(codec, f.b64)
            && f.after < f.before && |f.b64| < |b64|
  {
    var size := codec.config(b64).size;
    var target := Resized(size, STANDARD_EDGE, STANDARD_TOKENS);
    ResizedIsStable(size, STANDARD_EDGE, STANDARD_TOKENS, HIGH_RES_EDGE, HIGH_RES_TOKENS);
    assert codec.config(codec.reencode(b64, target)).size == target;
  }
}
