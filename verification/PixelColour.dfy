/** The colour of a down-sampled pixel, channel by channel. */
module PixelColour {

  import opened Image
  import opened Boxes

  /** Source position (x, y) belongs to destination pixel (dx, dy). */
  ghost predicate Feeds(sw: nat, sh: nat, dw: nat, dh: nat, dx: nat, dy: nat, x: nat, y: nat)
    requires dw > 0 && dh > 0
  {
    dx * sw / dw <= x < (dx + 1) * sw / dw && dy * sh / dh <= y < (dy + 1) * sh / dh
  }

  /** A channel of 16 bits, premultiplied by alpha, as a straight one of 8 bits. */
  function StraightChannel(v: nat, alpha: nat): nat
    requires alpha > 0
  {
    if v * 0xFFFF / alpha / 256 > 255 then 255 else v * 0xFFFF / alpha / 256
  }

  /** out has p's own colour, and is empty when p is transparent. */
  ghost predicate HasColour(p: Pixel, out: NRGBA) {
    out == if p.a == 0 then NRGBA(0, 0, 0, 0)
           else NRGBA(StraightChannel(p.r, p.a), StraightChannel(p.g, p.a), StraightChannel(p.b, p.a), p.a / 256)
  }

  ghost predicate AllFeed(at: Source, sw: nat, sh: nat, dw: nat, dh: nat, dx: nat, dy: nat, p: Pixel)
    requires dw > 0 && dh > 0
  {
    forall x, y :: Feeds(sw, sh, dw, dh, dx, dy, x, y) ==> at(x, y) == p
  }

  /** Where every pixel of the box is the same, the destination pixel has its colour. */
  ghost predicate KeepsColour(at: Source, sw: nat, sh: nat, dw: nat, dh: nat, dx: nat, dy: nat, out: NRGBA)
    requires dw > 0 && dh > 0
  {
    forall p :: Channels(p) && AllFeed(at, sw, sh, dw, dh, dx, dy, p) ==> HasColour(p, out)
  }

  /** p is opaque, and each channel of it lies between those of lo and hi. */
  predicate OpaqueBetween(lo: Pixel, p: Pixel, hi: Pixel) {
    p.a == 0xFFFF && lo.r <= p.r <= hi.r && lo.g <= p.g <= hi.g && lo.b <= p.b <= hi.b
  }

  predicate CutBetween(lo: Pixel, out: NRGBA, hi: Pixel) {
    && out.a == 255 && lo.r / 256 <= out.r <= hi.r / 256 && lo.g / 256 <= out.g <= hi.g / 256
    && lo.b / 256 <= out.b <= hi.b / 256
  }

  ghost predicate AllBetween(at: Source, sw: nat, sh: nat, dw: nat, dh: nat, dx: nat, dy: nat, lo: Pixel, hi: Pixel)
    requires dw > 0 && dh > 0
  {
    forall x, y :: Feeds(sw, sh, dw, dh, dx, dy, x, y) ==> OpaqueBetween(lo, at(x, y), hi)
  }

  /** Where the box is opaque, each channel stays between its least and its greatest
      value in the box. */
  ghost predicate KeepsRange(at: Source, sw: nat, sh: nat, dw: nat, dh: nat, dx: nat, dy: nat, out: NRGBA)
    requires dw > 0 && dh > 0
  {
    forall lo, hi :: Channels(lo) && Channels(hi) && AllBetween(at, sw, sh, dw, dh, dx, dy, lo, hi) ==>
      CutBetween(lo, out, hi)
  }

  // ---- sums of bounded channels ----

  ghost predicate BoxBetween(ch: (nat, nat) -> nat, x0: nat, x1: nat, y0: nat, y1: nat, lo: nat, hi: nat) {
    forall x, y :: x0 <= x < x1 && y0 <= y < y1 ==> lo <= ch(x, y) <= hi
  }

  lemma {:induction false} OneMoreTime(v: nat, n: nat)
    requires n > 0
    ensures v * n == v * (n - 1) + v
  {
  }

  lemma {:induction false} RowSumBetween(ch: (nat, nat) -> nat, y: nat, x0: nat, x1: nat, lo: nat, hi: nat)
    requires x0 <= x1 && forall x :: x0 <= x < x1 ==> lo <= ch(x, y) <= hi
    ensures lo * (x1 - x0) <= RowSum(ch, y, x0, x1) <= hi * (x1 - x0)
    decreases x1 - x0
  {
    if x0 < x1 {
      RowSumBetween(ch, y, x0, x1 - 1, lo, hi);
      OneMoreTime(lo, x1 - x0);
      OneMoreTime(hi, x1 - x0);
    }
  }

  lemma {:induction false} OneMoreRow(v: nat, w: nat, h: nat)
    requires h > 0
    ensures v * (w * h) == v * (w * (h - 1)) + v * w
  {
    OneMoreTime(w, h);
    assert v * (w * (h - 1) + w) == v * (w * (h - 1)) + v * w;
  }

  lemma {:induction false} BoxSumBetween(ch: (nat, nat) -> nat, x0: nat, x1: nat, y0: nat, y1: nat, lo: nat, hi: nat)
    requires x0 <= x1 && y0 <= y1 && BoxBetween(ch, x0, x1, y0, y1, lo, hi)
    ensures lo * ((x1 - x0) * (y1 - y0)) <= BoxSum(ch, x0, x1, y0, y1) <= hi * ((x1 - x0) * (y1 - y0))
    decreases y1 - y0
  {
    if y0 < y1 {
      BoxSumBetween(ch, x0, x1, y0, y1 - 1, lo, hi);
      RowSumBetween(ch, y1 - 1, x0, x1, lo, hi);
      OneMoreRow(lo, x1 - x0, y1 - y0);
      OneMoreRow(hi, x1 - x0, y1 - y0);
    }
  }

  lemma {:induction false} FlatSum(ch: (nat, nat) -> nat, x0: nat, x1: nat, y0: nat, y1: nat, v: nat)
    requires x0 <= x1 && y0 <= y1 && BoxBetween(ch, x0, x1, y0, y1, v, v)
    ensures BoxSum(ch, x0, x1, y0, y1) == (x1 - x0) * (y1 - y0) * v
  {
    BoxSumBetween(ch, x0, x1, y0, y1, v, v);
  }

  // ---- straight channels ----

  lemma {:induction false} TimesThenOver(count: nat, v: nat)
    requires count > 0
    ensures count * v / count == v
  {
    DivModUnique(count * v, count, v, 0);
  }

  lemma {:induction false} FlatStraight(v: nat, alpha: nat, count: nat)
    requires count > 0
    ensures Straight(count * v, count * alpha, count) == if alpha == 0 then 0 else StraightChannel(v, alpha)
  {
    TimesThenOver(count, alpha);
    assert count * v * CHANNEL_MAX == count * (v * CHANNEL_MAX);
    TimesThenOver(count, v * CHANNEL_MAX);
  }

  lemma {:induction false} StraightMonotone(sum: nat, sum': nat, alpha: nat, count: nat)
    requires sum <= sum' && count > 0
    ensures Straight(sum, alpha, count) <= Straight(sum', alpha, count)
  {
    if alpha / count > 0 {
      var a := alpha / count;
      DivMonotone(sum * CHANNEL_MAX, sum' * CHANNEL_MAX, count);
      DivMonotone(sum * CHANNEL_MAX / count, sum' * CHANNEL_MAX / count, a);
      DivMonotone(sum * CHANNEL_MAX / count / a, sum' * CHANNEL_MAX / count / a, 256);
    }
  }

  lemma {:induction false} StraightBetween(sum: nat, count: nat, lo: nat, hi: nat)
    requires count > 0 && lo * count <= sum <= hi * count && lo <= CHANNEL_MAX && hi <= CHANNEL_MAX
    ensures lo / 256 <= Straight(sum, count * CHANNEL_MAX, count) <= hi / 256
  {
    FlatBoxKeepsColour(lo, count);
    FlatBoxKeepsColour(hi, count);
    StraightMonotone(count * lo, sum, count * CHANNEL_MAX, count);
    StraightMonotone(sum, count * hi, count * CHANNEL_MAX, count);
  }

  // ---- the average of a box ----

  ghost function AverageOver(at: Source, x0: nat, x1: nat, y0: nat, y1: nat): NRGBA
    requires x0 < x1 && y0 < y1 && (x1 - x0) * (y1 - y0) > 0
  {
    Averaged(BoxSum(Red(at), x0, x1, y0, y1), BoxSum(Green(at), x0, x1, y0, y1),
             BoxSum(Blue(at), x0, x1, y0, y1), BoxSum(Alpha(at), x0, x1, y0, y1), (x1 - x0) * (y1 - y0))
  }

  ghost predicate AllIn(at: Source, x0: nat, x1: nat, y0: nat, y1: nat, p: Pixel) {
    forall x, y :: x0 <= x < x1 && y0 <= y < y1 ==> at(x, y) == p
  }

  lemma {:induction false} FlatAverage(at: Source, x0: nat, x1: nat, y0: nat, y1: nat, p: Pixel)
    requires x0 < x1 && y0 < y1 && (x1 - x0) * (y1 - y0) > 0 && AllIn(at, x0, x1, y0, y1, p)
    ensures HasColour(p, AverageOver(at, x0, x1, y0, y1))
  {
    var count := (x1 - x0) * (y1 - y0);
    FlatSum(Red(at), x0, x1, y0, y1, p.r);
    FlatSum(Green(at), x0, x1, y0, y1, p.g);
    FlatSum(Blue(at), x0, x1, y0, y1, p.b);
    FlatSum(Alpha(at), x0, x1, y0, y1, p.a);
    FlatStraight(p.r, p.a, count);
    FlatStraight(p.g, p.a, count);
    FlatStraight(p.b, p.a, count);
    TimesThenOver(count, p.a);
  }

  ghost predicate BetweenIn(at: Source, x0: nat, x1: nat, y0: nat, y1: nat, lo: Pixel, hi: Pixel) {
    forall x, y :: x0 <= x < x1 && y0 <= y < y1 ==> OpaqueBetween(lo, at(x, y), hi)
  }

  lemma {:induction false} OpaqueAverage(at: Source, x0: nat, x1: nat, y0: nat, y1: nat, lo: Pixel, hi: Pixel)
    requires x0 < x1 && y0 < y1 && (x1 - x0) * (y1 - y0) > 0 && BetweenIn(at, x0, x1, y0, y1, lo, hi)
    requires Channels(lo) && Channels(hi)
    ensures CutBetween(lo, AverageOver(at, x0, x1, y0, y1), hi)
  {
    var count := (x1 - x0) * (y1 - y0);
    FlatSum(Alpha(at), x0, x1, y0, y1, CHANNEL_MAX);
    TimesThenOver(count, CHANNEL_MAX);
    BoxSumBetween(Red(at), x0, x1, y0, y1, lo.r, hi.r);
    BoxSumBetween(Green(at), x0, x1, y0, y1, lo.g, hi.g);
    BoxSumBetween(Blue(at), x0, x1, y0, y1, lo.b, hi.b);
    StraightBetween(BoxSum(Red(at), x0, x1, y0, y1), count, lo.r, hi.r);
    StraightBetween(BoxSum(Green(at), x0, x1, y0, y1), count, lo.g, hi.g);
    StraightBetween(BoxSum(Blue(at), x0, x1, y0, y1), count, lo.b, hi.b);
  }

  lemma {:induction false} FeedsIsBox(at: Source, sw: nat, sh: nat, dw: nat, dh: nat, dx: nat, dy: nat)
    requires dw > 0 && dh > 0
    ensures var x0, x1, y0, y1 := Edge(dx, sw, dw), Edge(dx + 1, sw, dw), Edge(dy, sh, dh), Edge(dy + 1, sh, dh);
            && (forall p :: AllFeed(at, sw, sh, dw, dh, dx, dy, p) ==> AllIn(at, x0, x1, y0, y1, p))
            && (forall lo, hi :: AllBetween(at, sw, sh, dw, dh, dx, dy, lo, hi) ==>
                  BetweenIn(at, x0, x1, y0, y1, lo, hi))
  {
    var x0, x1, y0, y1 := Edge(dx, sw, dw), Edge(dx + 1, sw, dw), Edge(dy, sh, dh), Edge(dy + 1, sh, dh);
    forall x: nat, y: nat | x0 <= x < x1 && y0 <= y < y1 ensures Feeds(sw, sh, dw, dh, dx, dy, x, y) {
    }
  }

  /** The average of a pixel's own box keeps its colour and its range. */
  lemma {:induction false} AverageKeepsColour(at: Source, sw: nat, sh: nat, dw: nat, dh: nat, dx: nat, dy: nat)
    requires dx < dw <= sw && dy < dh <= sh && sw * sh <= MAX_PIXELS
    ensures KeepsColour(at, sw, sh, dw, dh, dx, dy, BoxAverage(at, sw, sh, dw, dh, dx, dy))
    ensures KeepsRange(at, sw, sh, dw, dh, dx, dy, BoxAverage(at, sw, sh, dw, dh, dx, dy))
  {
    BoxWithinSource(sw, sh, dw, dh, dx, dy);
    FeedsIsBox(at, sw, sh, dw, dh, dx, dy);
    var x0, x1, y0, y1 := Edge(dx, sw, dw), Edge(dx + 1, sw, dw), Edge(dy, sh, dh), Edge(dy + 1, sh, dh);
    assert BoxAverage(at, sw, sh, dw, dh, dx, dy) == AverageOver(at, x0, x1, y0, y1);
    forall p | Channels(p) && AllIn(at, x0, x1, y0, y1, p) {
      FlatAverage(at, x0, x1, y0, y1, p);
    }
    forall lo, hi | Channels(lo) && Channels(hi) && BetweenIn(at, x0, x1, y0, y1, lo, hi) {
      OpaqueAverage(at, x0, x1, y0, y1, lo, hi);
    }
  }
}
