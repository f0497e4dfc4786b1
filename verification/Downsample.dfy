/** The box down-sampler: boxDownsample of internal/livezone/image.go. */
module Downsample {

  import opened Image
  import opened Boxes
  import opened PixelColour

  /** A partial sum inside a box no larger than the pixel cap fits in 64 bits,
      and so does its product with the channel maximum. */
  lemma {:induction false} PartialSumFits(ch: (nat, nat) -> nat, x0: nat, x1: nat, y0: nat, y1: nat, sx: nat, sy: nat)
    requires Bounded(ch) && x0 <= sx <= x1 && y0 <= sy < y1 && (x1 - x0) * (y1 - y0) <= MAX_PIXELS
    ensures BoxSum(ch, x0, x1, y0, sy) + RowSum(ch, sy, x0, sx) <= CHANNEL_MAX * MAX_PIXELS
  {
    BoxSumBound(ch, x0, x1, y0, sy);
    RowSumBound(ch, sy, x0, sx);
    assert (x1 - x0) * (y1 - y0) == (x1 - x0) * (sy - y0) + (x1 - x0) * (y1 - sy);
    MulMonotone(x1 - x0, 1, x1 - x0, y1 - sy);
  }

  ghost predicate Partial(ch: (nat, nat) -> nat, x0: nat, x1: nat, y0: nat, sx: nat, sy: nat, sum: uint64) {
    sum as nat == BoxSum(ch, x0, x1, y0, sy) + RowSum(ch, sy, x0, sx)
  }

  /** sum += v, with the proof that the sum stays a uint64. */
  method AddTo(ghost ch: (nat, nat) -> nat, ghost x0: nat, ghost x1: nat, ghost y0: nat, ghost y1: nat, ghost sx: nat,
               ghost sy: nat, sum: uint64, v: nat)
    returns (r: uint64)
    requires Bounded(ch) && x0 <= sx < x1 && y0 <= sy < y1 && (x1 - x0) * (y1 - y0) <= MAX_PIXELS
    requires Partial(ch, x0, x1, y0, sx, sy, sum) && v == ch(sx, sy)
    ensures Partial(ch, x0, x1, y0, sx + 1, sy, r)
  {
    PartialSumFits(ch, x0, x1, y0, y1, sx + 1, sy);
    r := sum + v as uint64;
  }

  /** Positions in h rows of w. */
  ghost function Cells(w: nat, h: nat): nat { if h == 0 then 0 else Cells(w, h - 1) + w }

  lemma {:induction false} CellsIs(w: nat, h: nat)
    ensures Cells(w, h) == w * h
  {
    if h > 0 {
      CellsIs(w, h - 1);
    }
  }

  /** The sums grow by row sy. */
  method AddRow(at: Source, x0: nat, x1: nat, ghost y0: nat, ghost y1: nat, sy: nat,
                sumR: uint64, sumG: uint64, sumB: uint64, sumA: uint64, count: nat)
    returns (sumR': uint64, sumG': uint64, sumB': uint64, sumA': uint64, count': nat)
    requires forall x, y :: Channels(at(x, y))
    requires x0 <= x1 && y0 <= sy < y1 && (x1 - x0) * (y1 - y0) <= MAX_PIXELS
    requires Partial(Red(at), x0, x1, y0, x0, sy, sumR) && Partial(Green(at), x0, x1, y0, x0, sy, sumG)
    requires Partial(Blue(at), x0, x1, y0, x0, sy, sumB) && Partial(Alpha(at), x0, x1, y0, x0, sy, sumA)
    ensures Partial(Red(at), x0, x1, y0, x0, sy + 1, sumR') && Partial(Green(at), x0, x1, y0, x0, sy + 1, sumG')
    ensures Partial(Blue(at), x0, x1, y0, x0, sy + 1, sumB') && Partial(Alpha(at), x0, x1, y0, x0, sy + 1, sumA')
    ensures count' == count + (x1 - x0)
  {
    sumR', sumG', sumB', sumA', count' := sumR, sumG, sumB, sumA, count;
    for sx := x0 to x1
      invariant Partial(Red(at), x0, x1, y0, sx, sy, sumR')
      invariant Partial(Green(at), x0, x1, y0, sx, sy, sumG')
      invariant Partial(Blue(at), x0, x1, y0, sx, sy, sumB')
      invariant Partial(Alpha(at), x0, x1, y0, sx, sy, sumA')
      invariant count' == count + (sx - x0)
    {
      var p := at(sx, sy);
      sumR' := AddTo(Red(at), x0, x1, y0, y1, sx, sy, sumR', p.r);
      sumG' := AddTo(Green(at), x0, x1, y0, y1, sx, sy, sumG', p.g);
      sumB' := AddTo(Blue(at), x0, x1, y0, y1, sx, sy, sumB', p.b);
      sumA' := AddTo(Alpha(at), x0, x1, y0, y1, sx, sy, sumA', p.a);
      count' := count' + 1;
    }
  }

  /** The inner loops of boxDownsample, in 64-bit arithmetic that cannot wrap. */
  method SumBox(at: Source, x0: nat, x1: nat, y0: nat, y1: nat)
    returns (sumR: uint64, sumG: uint64, sumB: uint64, sumA: uint64, count: nat)
    requires forall x, y :: Channels(at(x, y))
    requires x0 <= x1 && y0 <= y1 && (x1 - x0) * (y1 - y0) <= MAX_PIXELS
    ensures sumR as nat == BoxSum(Red(at), x0, x1, y0, y1) <= CHANNEL_MAX * MAX_PIXELS
    ensures sumG as nat == BoxSum(Green(at), x0, x1, y0, y1) <= CHANNEL_MAX * MAX_PIXELS
    ensures sumB as nat == BoxSum(Blue(at), x0, x1, y0, y1) <= CHANNEL_MAX * MAX_PIXELS
    ensures sumA as nat == BoxSum(Alpha(at), x0, x1, y0, y1) <= CHANNEL_MAX * count
    ensures count == (x1 - x0) * (y1 - y0)
  {
    sumR, sumG, sumB, sumA, count := 0, 0, 0, 0, 0;
    for sy := y0 to y1
      invariant sumR as nat == BoxSum(Red(at), x0, x1, y0, sy)
      invariant sumG as nat == BoxSum(Green(at), x0, x1, y0, sy)
      invariant sumB as nat == BoxSum(Blue(at), x0, x1, y0, sy)
      invariant sumA as nat == BoxSum(Alpha(at), x0, x1, y0, sy)
      invariant count == Cells(x1 - x0, sy - y0)
    {
      sumR, sumG, sumB, sumA, count := AddRow(at, x0, x1, y0, y1, sy, sumR, sumG, sumB, sumA, count);
    }
    CellsIs(x1 - x0, y1 - y0);
    BoxSumBound(Red(at), x0, x1, y0, y1);
    BoxSumBound(Green(at), x0, x1, y0, y1);
    BoxSumBound(Blue(at), x0, x1, y0, y1);
    BoxSumBound(Alpha(at), x0, x1, y0, y1);
  }

  /** One straight channel, every intermediate a uint64. */
  method UnPremultiply(sum: uint64, avgA: uint64, count: uint64) returns (v: nat)
    requires sum as nat <= CHANNEL_MAX * MAX_PIXELS && avgA > 0 && count > 0
    ensures v == Rescaled(sum as nat, avgA as nat, count as nat)
  {
    var q := (sum * 0xFFFF / count) / avgA / 256;
    if q > 255 {
      q := 255;
    }
    v := q as nat;
  }

  /** Every destination pixel is the average of exactly its own box. */
  method BoxDownsample(at: Source, sw: nat, sh: nat, dw: nat, dh: nat) returns (dst: array2<NRGBA>)
    requires forall x, y :: Channels(at(x, y))
    requires dw <= sw && dh <= sh && sw * sh <= MAX_PIXELS
    ensures dst.Length0 == dh && dst.Length1 == dw
    ensures forall dx, dy :: 0 <= dx < dw && 0 <= dy < dh ==> dst[dy, dx] == BoxAverage(at, sw, sh, dw, dh, dx, dy)
    ensures forall dx, dy :: 0 <= dx < dw && 0 <= dy < dh ==> KeepsColour(at, sw, sh, dw, dh, dx, dy, dst[dy, dx])
    ensures forall dx, dy :: 0 <= dx < dw && 0 <= dy < dh ==> KeepsRange(at, sw, sh, dw, dh, dx, dy, dst[dy, dx])
  {
    dst := new NRGBA[dh, dw]((i, j) => NRGBA(0, 0, 0, 0));
    for dy := 0 to dh
      invariant forall x, y :: 0 <= x < dw && 0 <= y < dy ==> dst[y, x] == BoxAverage(at, sw, sh, dw, dh, x, y)
    {
      for dx := 0 to dw
        invariant forall x, y :: 0 <= x < dw && 0 <= y < dy ==> dst[y, x] == BoxAverage(at, sw, sh, dw, dh, x, y)
        invariant forall x :: 0 <= x < dx ==> dst[dy, x] == BoxAverage(at, sw, sh, dw, dh, x, dy)
      {
        BoxWithinSource(sw, sh, dw, dh, dx, dy);
        var x0 := dx * sw / dw;
        var x1 := (dx + 1) * sw / dw;
        var y0 := dy * sh / dh;
        var y1 := (dy + 1) * sh / dh;
        var pixel := AverageBox(at, x0, x1, y0, y1);
        dst[dy, dx] := pixel;
      }
    }
    forall dx, dy | 0 <= dx < dw && 0 <= dy < dh
      ensures KeepsColour(at, sw, sh, dw, dh, dx, dy, dst[dy, dx])
      ensures KeepsRange(at, sw, sh, dw, dh, dx, dy, dst[dy, dx])
    {
      AverageKeepsColour(at, sw, sh, dw, dh, dx, dy);
    }
  }

  method AverageBox(at: Source, x0: nat, x1: nat, y0: nat, y1: nat) returns (pixel: NRGBA)
    requires forall x, y :: Channels(at(x, y))
    requires x0 <= x1 && y0 <= y1 && 0 < (x1 - x0) * (y1 - y0) <= MAX_PIXELS
    ensures pixel == Averaged(BoxSum(Red(at), x0, x1, y0, y1), BoxSum(Green(at), x0, x1, y0, y1),
                              BoxSum(Blue(at), x0, x1, y0, y1), BoxSum(Alpha(at), x0, x1, y0,
                                                                       y1), (x1 - x0) * (y1 - y0))
  {
    var sumR, sumG, sumB, sumA, count := SumBox(at, x0, x1, y0, y1);
    var n := count as uint64;
    var avgA := sumA / n;
    var avgR, avgG, avgB := 0, 0, 0;
    if avgA > 0 {
      avgR := UnPremultiply(sumR, avgA, n);
      avgG := UnPremultiply(sumG, avgA, n);
      avgB := UnPremultiply(sumB, avgA, n);
    }
    pixel := NRGBA(avgR, avgG, avgB, (avgA / 256) as nat);
  }
}
