/** The boxes a down-sampled image averages: how they partition the source, and what
    the average of one is. boxDownsample of internal/livezone/image.go. */
module Boxes {

  import opened Image

  newtype uint64 = x: int | 0 <= x < 0x1_0000_0000_0000_0000

  /** One premultiplied pixel as RGBA() returns it, 16 bits a channel. */
  datatype Pixel = Pixel(r: nat, g: nat, b: nat, a: nat)

  /** One 8-bit, straight-alpha pixel. */
  datatype NRGBA = NRGBA(r: nat, g: nat, b: nat, a: nat)

  const CHANNEL_MAX: nat := 0xFFFF

  predicate Channels(p: Pixel) {
    p.r <= CHANNEL_MAX && p.g <= CHANNEL_MAX && p.b <= CHANNEL_MAX && p.a <= CHANNEL_MAX
  }

  /** Where box d of dw begins on an axis of length n; box d ends where d + 1 begins. */
  function Edge(d: nat, n: nat, dw: nat): nat
    requires dw > 0
  {
    d * n / dw
  }

  lemma {:induction false} EdgesAscend(d: nat, d': nat, n: nat, dw: nat)
    requires dw > 0 && d <= d'
    ensures Edge(d, n, dw) <= Edge(d', n, dw)
  {
    MulMonotone(d, n, d', n);
    DivMonotone(d * n, d' * n, dw);
  }

  lemma {:induction false} EdgesSpan(n: nat, dw: nat)
    requires dw > 0
    ensures Edge(0, n, dw) == 0 && Edge(dw, n, dw) == n
  {
    assert 0 * n == 0;
    DivModUnique(0, dw, 0, 0);
    DivModUnique(dw * n, dw, n, 0);
  }

  /** When the target is no longer than the source, no box is empty. */
  lemma {:induction false} BoxesNonEmpty(d: nat, n: nat, dw: nat)
    requires 0 < dw <= n
    ensures Edge(d, n, dw) < Edge(d + 1, n, dw)
  {
    assert (d + 1) * n == d * n + n;
    DivMonotone(d * n + dw, (d + 1) * n, dw);
    var q := d * n / dw;
    assert d * n + dw == (q + 1) * dw + d * n % dw;
    DivModUnique(d * n + dw, dw, q + 1, d * n % dw);
  }

  ghost predicate InBox(x: nat, d: nat, n: nat, dw: nat)
    requires dw > 0
  {
    Edge(d, n, dw) <= x < Edge(d + 1, n, dw)
  }

  /** The box holding source position x, found from the left. */
  ghost function BoxOf(x: nat, n: nat, dw: nat, d: nat): (r: nat)
    requires 0 < dw && d < dw && Edge(d, n, dw) <= x < n
    ensures r < dw && InBox(x, r, n, dw)
    decreases dw - d
  {
    EdgesSpan(n, dw);
    if x < Edge(d + 1, n, dw) then d else BoxOf(x, n, dw, d + 1)
  }

  lemma {:induction false} BoxesDisjoint(x: nat, n: nat, dw: nat, d: nat, e: nat)
    requires 0 < dw && InBox(x, d, n, dw) && InBox(x, e, n, dw)
    ensures d == e
  {
    if d < e {
      EdgesAscend(d + 1, e, n, dw);
    } else if e < d {
      EdgesAscend(e + 1, d, n, dw);
    }
  }

  /** The boxes tile the axis: every position lies in exactly one. */
  lemma {:induction false} BoxesTile(x: nat, n: nat, dw: nat)
    requires 0 < dw && x < n
    ensures exists d: nat :: d < dw && InBox(x, d, n, dw)
    ensures forall d: nat, e: nat :: InBox(x, d, n, dw) && InBox(x, e, n, dw) ==> d == e
  {
    EdgesSpan(n, dw);
    assert InBox(x, BoxOf(x, n, dw, 0), n, dw);
    forall d: nat, e: nat | InBox(x, d, n, dw) && InBox(x, e, n, dw) ensures d == e {
      BoxesDisjoint(x, n, dw, d, e);
    }
  }

  /** Sum of one channel over row y, columns [lo, hi). */
  ghost function RowSum(ch: (nat, nat) -> nat, y: nat, lo: nat, hi: nat): nat
    decreases hi - lo
  {
    if lo >= hi then 0 else RowSum(ch, y, lo, hi - 1) + ch(hi - 1, y)
  }

  /** Sum of one channel over the box [x0, x1) by [y0, y1). */
  ghost function BoxSum(ch: (nat, nat) -> nat, x0: nat, x1: nat, y0: nat, y1: nat): nat
    decreases y1 - y0
  {
    if y0 >= y1 then 0 else BoxSum(ch, x0, x1, y0, y1 - 1) + RowSum(ch, y1 - 1, x0, x1)
  }

  lemma {:induction false} RowSplits(ch: (nat, nat) -> nat, y: nat, lo: nat, mid: nat, hi: nat)
    requires lo <= mid <= hi
    ensures RowSum(ch, y, lo, hi) == RowSum(ch, y, lo, mid) + RowSum(ch, y, mid, hi)
    decreases hi
  {
    if mid < hi {
      RowSplits(ch, y, lo, mid, hi - 1);
    }
  }

  lemma {:induction false} BoxSplitsAcross(ch: (nat, nat) -> nat, x0: nat, mid: nat, x1: nat, y0: nat, y1: nat)
    requires x0 <= mid <= x1
    ensures BoxSum(ch, x0, x1, y0, y1) == BoxSum(ch, x0, mid, y0, y1) + BoxSum(ch, mid, x1, y0, y1)
    decreases y1
  {
    if y0 < y1 {
      BoxSplitsAcross(ch, x0, mid, x1, y0, y1 - 1);
      RowSplits(ch, y1 - 1, x0, mid, x1);
    }
  }

  lemma {:induction false} BoxSplitsDown(ch: (nat, nat) -> nat, x0: nat, x1: nat, y0: nat, mid: nat, y1: nat)
    requires y0 <= mid <= y1
    ensures BoxSum(ch, x0, x1, y0, y1) == BoxSum(ch, x0, x1, y0, mid) + BoxSum(ch, x0, x1, mid, y1)
    decreases y1
  {
    if mid < y1 {
      BoxSplitsDown(ch, x0, x1, y0, mid, y1 - 1);
    }
  }

  /** Sum of the first k box sums of destination row dy. */
  ghost function RowOfBoxes(ch: (nat, nat) -> nat, sw: nat, dw: nat, k: nat, y0: nat, y1: nat): nat
    requires dw > 0
  {
    if k == 0 then 0
    else RowOfBoxes(ch, sw, dw, k - 1, y0, y1) + BoxSum(ch, Edge(k - 1, sw, dw), Edge(k, sw, dw), y0, y1)
  }

  ghost function AllBoxes(ch: (nat, nat) -> nat, sw: nat, sh: nat, dw: nat, dh: nat, k: nat): nat
    requires dw > 0 && dh > 0
  {
    if k == 0 then 0
    else AllBoxes(ch, sw, sh, dw, dh, k - 1) + RowOfBoxes(ch, sw, dw, dw, Edge(k - 1, sh, dh), Edge(k, sh, dh))
  }

  lemma {:induction false} RowOfBoxesIsStrip(ch: (nat, nat) -> nat, sw: nat, dw: nat, k: nat, y0: nat, y1: nat)
    requires dw > 0
    ensures RowOfBoxes(ch, sw, dw, k, y0, y1) == BoxSum(ch, 0, Edge(k, sw, dw), y0, y1)
  {
    EdgesSpan(sw, dw);
    if k == 0 {
      EmptyBox(ch, 0, y0, y1);
    } else {
      RowOfBoxesIsStrip(ch, sw, dw, k - 1, y0, y1);
      EdgesAscend(k - 1, k, sw, dw);
      BoxSplitsAcross(ch, 0, Edge(k - 1, sw, dw), Edge(k, sw, dw), y0, y1);
    }
  }

  lemma {:induction false} EmptyBox(ch: (nat, nat) -> nat, x: nat, y0: nat, y1: nat)
    ensures BoxSum(ch, x, x, y0, y1) == 0
    decreases y1
  {
    if y0 < y1 {
      EmptyBox(ch, x, y0, y1 - 1);
    }
  }

  /** Conservation: over all destination pixels, the box sums of a channel add up
      to the sum over the whole source, so no source pixel is lost or counted twice. */
  lemma {:induction false} BoxSumsConserve(ch: (nat, nat) -> nat, sw: nat, sh: nat, dw: nat, dh: nat, k: nat)
    requires dw > 0 && dh > 0
    ensures AllBoxes(ch, sw, sh, dw, dh, k) == BoxSum(ch, 0, sw, 0, Edge(k, sh, dh))
    ensures k == dh ==> AllBoxes(ch, sw, sh, dw, dh, k) == BoxSum(ch, 0, sw, 0, sh)
  {
    EdgesSpan(sh, dh);
    EdgesSpan(sw, dw);
    if k > 0 {
      BoxSumsConserve(ch, sw, sh, dw, dh, k - 1);
      RowOfBoxesIsStrip(ch, sw, dw, dw, Edge(k - 1, sh, dh), Edge(k, sh, dh));
      EdgesAscend(k - 1, k, sh, dh);
      BoxSplitsDown(ch, 0, sw, 0, Edge(k - 1, sh, dh), Edge(k, sh, dh));
    }
  }

  function Clamp(x: nat): nat { if x > 255 then 255 else x }

  /** Un-premultiply a mean channel and cut it to 8 bits. */
  function Rescaled(sum: nat, avgA: nat, count: nat): nat
    requires count > 0 && avgA > 0
  {
    Clamp(sum * CHANNEL_MAX / count / avgA / 256)
  }

  /** Straight 8-bit channel of a box with these sums. */
  function Straight(sum: nat, alphaSum: nat, count: nat): nat
    requires count > 0
  {
    if alphaSum / count == 0 then 0 else Rescaled(sum, alphaSum / count, count)
  }

  function Averaged(r: nat, g: nat, b: nat, a: nat, count: nat): NRGBA
    requires count > 0
  {
    NRGBA(Straight(r, a, count), Straight(g, a, count), Straight(b, a, count), a / count / 256)
  }

  /** A flat opaque box keeps its colour, to the 8 bits the target has. */
  lemma {:induction false} FlatBoxKeepsColour(v: nat, count: nat)
    requires count > 0 && v <= CHANNEL_MAX
    ensures Straight(count * v, count * CHANNEL_MAX, count) == v / 256
  {
    DivModUnique(count * CHANNEL_MAX, count, CHANNEL_MAX, 0);
    assert count * v * CHANNEL_MAX == v * CHANNEL_MAX * count;
    DivModUnique(count * v * CHANNEL_MAX, count, v * CHANNEL_MAX, 0);
    DivModUnique(v * CHANNEL_MAX, CHANNEL_MAX, v, 0);
  }

  type Source = (nat, nat) -> Pixel

  function Red(at: Source): (nat, nat) -> nat { (x, y) => at(x, y).r }
  function Green(at: Source): (nat, nat) -> nat { (x, y) => at(x, y).g }
  function Blue(at: Source): (nat, nat) -> nat { (x, y) => at(x, y).b }
  function Alpha(at: Source): (nat, nat) -> nat { (x, y) => at(x, y).a }

  ghost predicate Bounded(ch: (nat, nat) -> nat) {
    forall x, y :: ch(x, y) <= CHANNEL_MAX
  }

  lemma {:induction false} RowSumBound(ch: (nat, nat) -> nat, y: nat, lo: nat, hi: nat)
    requires Bounded(ch) && lo <= hi
    ensures RowSum(ch, y, lo, hi) <= CHANNEL_MAX * (hi - lo)
    decreases hi - lo
  {
    if lo < hi {
      RowSumBound(ch, y, lo, hi - 1);
    }
  }

  lemma {:induction false} BoxSumBound(ch: (nat, nat) -> nat, x0: nat, x1: nat, y0: nat, y1: nat)
    requires Bounded(ch) && x0 <= x1 && y0 <= y1
    ensures BoxSum(ch, x0, x1, y0, y1) <= CHANNEL_MAX * ((x1 - x0) * (y1 - y0))
    decreases y1 - y0
  {
    if y0 < y1 {
      BoxSumBound(ch, x0, x1, y0, y1 - 1);
      RowSumBound(ch, y1 - 1, x0, x1);
      assert (x1 - x0) * (y1 - y0) == (x1 - x0) * (y1 - 1 - y0) + (x1 - x0);
    }
  }

  ghost function BoxAverage(at: Source, sw: nat, sh: nat, dw: nat, dh: nat, dx: nat, dy: nat): NRGBA
    requires dx < dw <= sw && dy < dh <= sh
  {
    var x0, x1, y0, y1 := Edge(dx, sw, dw), Edge(dx + 1, sw, dw), Edge(dy, sh, dh), Edge(dy + 1, sh, dh);
    BoxesNonEmpty(dx, sw, dw);
    BoxesNonEmpty(dy, sh, dh);
    MulMonotone(1, 1, x1 - x0, y1 - y0);
    Averaged(BoxSum(Red(at), x0, x1, y0, y1), BoxSum(Green(at), x0, x1, y0, y1),
             BoxSum(Blue(at), x0, x1, y0, y1), BoxSum(Alpha(at), x0, x1, y0, y1), (x1 - x0) * (y1 - y0))
  }

  lemma {:induction false} BoxWithinSource(sw: nat, sh: nat, dw: nat, dh: nat, dx: nat, dy: nat)
    requires dx < dw <= sw && dy < dh <= sh && sw * sh <= MAX_PIXELS
    ensures var x0, x1, y0, y1 := Edge(dx, sw, dw), Edge(dx + 1, sw, dw), Edge(dy, sh, dh), Edge(dy + 1, sh, dh);
            x0 < x1 <= sw && y0 < y1 <= sh && 0 < (x1 - x0) * (y1 - y0) <= MAX_PIXELS
  {
    BoxesNonEmpty(dx, sw, dw);
    BoxesNonEmpty(dy, sh, dh);
    EdgesAscend(dx + 1, dw, sw, dw);
    EdgesAscend(dy + 1, dh, sh, dh);
    EdgesSpan(sw, dw);
    EdgesSpan(sh, dh);
    var x0, x1, y0, y1 := Edge(dx, sw, dw), Edge(dx + 1, sw, dw), Edge(dy, sh, dh), Edge(dy + 1, sh, dh);
    MulMonotone(1, 1, x1 - x0, y1 - y0);
    MulMonotone(x1 - x0, y1 - y0, sw, sh);
  }
}
