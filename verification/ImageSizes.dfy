/** What the size search returns, in plain arithmetic: internal/livezone/image.go. */
module ImageSizes {

  import opened Image

  // ---- tokens ----

  /** k patches of 28 pixels are the fewest that cover n pixels. */
  predicate Covers(k: nat, n: nat) { n <= 28 * k && (k > 0 ==> 28 * (k - 1) < n) }

  lemma {:induction false} CeilCovers(n: nat, k: nat)
    ensures Covers(k, n) <==> k == CeilDiv(n, PATCH)
  {
    assert n + 27 == (n + 27) / 28 * 28 + (n + 27) % 28;
  }

  /** An image costs tokens for as many patches as it takes to cover it. */
  ghost predicate Costs(s: Size, tokens: nat) {
    exists cols: nat, rows: nat :: Covers(cols, s.w) && Covers(rows, s.h) && tokens == cols * rows
  }

  lemma {:induction false} TokensAre(s: Size, tokens: nat)
    ensures Costs(s, tokens) <==> tokens == CountImageTokens(s)
  {
    var cols, rows := CeilDiv(s.w, PATCH), CeilDiv(s.h, PATCH);
    CeilCovers(s.w, cols);
    CeilCovers(s.h, rows);
    if cols': nat, rows': nat :| Covers(cols', s.w) && Covers(rows', s.h) && tokens == cols' * rows' {
      CeilCovers(s.w, cols');
      CeilCovers(s.h, rows');
    }
  }

  // ---- rounding ----

  /** r is nearest to p / q, and even when halfway. */
  predicate Nearest(p: nat, q: nat, r: nat) {
    && q > 0 && 2 * (p - r * q) <= q && 2 * (r * q - p) <= q
    && (2 * (p - r * q) == q || 2 * (r * q - p) == q ==> r % 2 == 0)
  }

  lemma {:induction false} RoundIsNearest(p: nat, q: nat)
    requires q > 0
    ensures Nearest(p, q, RoundHalfEven(p, q))
  {
    var d := p / q;
    assert p == d * q + p % q && (d + 1) * q == d * q + q;
  }

  lemma {:induction false} NearestApart(p: nat, q: nat, r: nat, t: nat)
    requires Nearest(p, q, r) && Nearest(p, q, t)
    ensures r >= t
  {
    if r < t {
      assert t * q - r * q == (t - r) * q;
      assert (t - r) * q == (t - r - 1) * q + q;
      if t - r > 1 {
        AtLeastOnce(t - r - 1, q);
      }
    }
  }

  lemma {:induction false} NearestIs(p: nat, q: nat, r: nat)
    requires q > 0
    ensures Nearest(p, q, r) <==> r == RoundHalfEven(p, q)
  {
    RoundIsNearest(p, q);
    if Nearest(p, q, r) {
      NearestApart(p, q, r, RoundHalfEven(p, q));
      NearestApart(p, q, RoundHalfEven(p, q), r);
    }
  }

  // ---- the size ----

  ghost predicate WithinTier(t: Size, maxEdge: nat, maxTokens: nat) {
    t.w <= maxEdge && t.h <= maxEdge && exists tokens: nat :: Costs(t, tokens) && tokens <= maxTokens
  }

  lemma {:induction false} WithinIff(t: Size, maxEdge: nat, maxTokens: nat)
    ensures WithinTier(t, maxEdge, maxTokens) <==> Fits(t, maxEdge, maxTokens)
  {
    TokensAre(t, CountImageTokens(t));
    if WithinTier(t, maxEdge, maxTokens) {
      var tokens: nat :| Costs(t, tokens) && tokens <= maxTokens;
      TokensAre(t, tokens);
    }
  }

  /** t has this long edge and, but for rounding, the proportions of s. */
  ghost predicate HasEdge(s: Size, edge: nat, t: Size) {
    if s.w > s.h then t.w == edge && Nearest(edge * s.h, s.w, t.h) else t.h == edge && Nearest(edge * s.w, s.h, t.w)
  }

  lemma {:induction false} ScaledHasEdge(s: Size, edge: nat, t: Size)
    requires s.w > 0 && s.h > 0
    ensures HasEdge(s, edge, t) <==> t == Scaled(s, edge)
  {
    NearestIs(edge * s.h, s.w, t.h);
    NearestIs(edge * s.w, s.h, t.w);
  }

  /** No size with a long edge from `edge` to the tier's is within the tier. */
  ghost predicate NoneLonger(s: Size, edge: nat, maxEdge: nat, maxTokens: nat) {
    forall e: nat, t :: edge <= e <= maxEdge && HasEdge(s, e, t) ==> !WithinTier(t, maxEdge, maxTokens)
  }

  /** t has long edge e and is within the tier, and no longer edge is. */
  ghost predicate IsLargest(s: Size, e: nat, t: Size, maxEdge: nat, maxTokens: nat) {
    && 1 <= e <= maxEdge && HasEdge(s, e, t) && WithinTier(t, maxEdge, maxTokens)
    && NoneLonger(s, e + 1, maxEdge, maxTokens)
  }

  lemma {:induction false} NoneLongerIff(s: Size, edge: nat, maxEdge: nat, maxTokens: nat)
    requires s.w > 0 && s.h > 0 && forall e: nat :: edge <= e <= maxEdge ==> !Fits(Scaled(s, e), maxEdge, maxTokens)
    ensures NoneLonger(s, edge, maxEdge, maxTokens)
  {
    forall e: nat, t | edge <= e <= maxEdge && HasEdge(s, e, t) ensures !WithinTier(t, maxEdge, maxTokens) {
      ScaledHasEdge(s, e, t);
      WithinIff(t, maxEdge, maxTokens);
    }
  }

  /** A size within the tier is kept; any other becomes the one with the longest edge
      that is within it, or empty when there is none. */
  lemma {:induction false} ResizedIsLargest(s: Size, maxEdge: nat, maxTokens: nat)
    requires s.w > 0 && s.h > 0
    ensures var t := Resized(s, maxEdge, maxTokens);
            if WithinTier(s, maxEdge, maxTokens) then t == s
            else if NoneLonger(s, 1, maxEdge, maxTokens) then t == Size(0, 0)
            else exists e: nat :: IsLargest(s, e, t, maxEdge, maxTokens)
  {
    WithinIff(s, maxEdge, maxTokens);
    if !Fits(s, maxEdge, maxTokens) {
      var best := BestEdge(s, maxEdge, maxEdge, maxTokens);
      BestEdgeIsLargest(s, maxEdge, maxEdge, maxTokens);
      NoneLongerIff(s, best + 1, maxEdge, maxTokens);
      if best > 0 {
        EdgeIsLargest(s, best, maxEdge, maxTokens);
        assert Resized(s, maxEdge, maxTokens) == Scaled(s, best);
      }
    }
  }

  lemma {:induction false} EdgeIsLargest(s: Size, best: nat, maxEdge: nat, maxTokens: nat)
    requires s.w > 0 && s.h > 0 && 1 <= best <= maxEdge && Fits(Scaled(s, best), maxEdge, maxTokens)
    requires NoneLonger(s, best + 1, maxEdge, maxTokens)
    ensures IsLargest(s, best, Scaled(s, best), maxEdge, maxTokens) && !NoneLonger(s, 1, maxEdge, maxTokens)
  {
    ScaledHasEdge(s, best, Scaled(s, best));
    WithinIff(Scaled(s, best), maxEdge, maxTokens);
  }

  // ---- fitting a payload ----

  /** Declared and actual format agree. */
  predicate Agree(mediaType: string, format: string) {
    || (mediaType == "image/png" && format != "jpeg")
    || (mediaType == "image/jpeg" && format != "png")
  }

  /** A payload is replaced if and only if its format agrees with a declared type that
      is supported, it has pixels and no more than a hundred million, the standard tier
      gives it another, non-empty size that costs fewer tokens than its size in the
      high-resolution tier, and the encoding is shorter. */
  lemma {:induction false} FittedIff(codec: Codec, b64: string, mediaType: string, fit: Fit)
    requires fit.Fitted?
    ensures FitImage(codec, b64, mediaType) == fit
       <==> codec.config(b64).Readable?
            && var s := codec.config(b64).size;
               && Agree(mediaType, codec.config(b64).format)
               && s.w > 0 && s.h > 0 && s.w * s.h <= 100_000_000
               && var t := Resized(s, 1568, 1568);
                  && t != s && t.w > 0 && t.h > 0
                  && fit.b64 == codec.reencode(b64, t) && 0 < |fit.b64| < |b64|
                  && Costs(Resized(s, 2576, 4784), fit.before) && Costs(t, fit.after) && fit.after < fit.before
  {
    if codec.config(b64).Readable? {
      var s := codec.config(b64).size;
      if s.w > 0 && s.h > 0 {
        TokensAre(Resized(s, 2576, 4784), fit.before);
        TokensAre(Resized(s, 1568, 1568), fit.after);
      }
    }
  }
}
