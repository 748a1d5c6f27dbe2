/**
 * Noise reduction (`applyNoiseReduction`): a clipped box blur of the source
 * buffer, blended with the source pixel by a factor strength/10, written over
 * the RGB bytes of the canvas buffer in place. Arithmetic is exact: the
 * JavaScript expressions `Math.round(sum / count)` and
 * `Math.round(t * (1 - s/10) + m * (s/10))` become `RoundDiv` over integers.
 */
module NoiseRemoval {
  import opened Common

  /** `Math.round(n / d)` for d > 0: halves round upwards, i.e. floor(n/d + 1/2). */
  function RoundDiv(n: int, d: int): (q: int)
    requires d > 0
    ensures 2 * d * q <= 2 * n + d < 2 * d * (q + 1)
  {
    (2 * n + d) / (2 * d)
  }

  lemma MulMono(a: int, b: int, c: int)
    requires a <= b && c >= 0
    ensures a * c <= b * c
  {
    assert b * c - a * c == (b - a) * c;
  }

  lemma Distribute(a: int, b: int, c: int)
    ensures a * (b + c) == a * b + a * c
  {
  }

  /** A rounded quotient stays within any bounds the exact quotient keeps. */
  lemma RoundDivWithin(n: int, d: int, lo: int, hi: int)
    requires d > 0 && lo * d <= n <= hi * d
    ensures lo <= RoundDiv(n, d) <= hi
  {
    var q := RoundDiv(n, d);
    assert 2 * d * q <= 2 * n + d < 2 * d * (q + 1);
    if q < lo {
      MulMono(q + 1, lo, 2 * d);
      assert false;
    }
    if q > hi {
      MulMono(hi + 1, q, 2 * d);
      assert false;
    }
  }

  /** Box-blur radius: `Math.floor(strength / 2)`. */
  function Radius(strength: int): (r: nat)
    requires 1 <= strength <= 10
    ensures 2 * r <= strength <= 2 * r + 1
  {
    strength / 2
  }

  /**
   * The blend `Math.round(orig * (1 - f) + mean * f)` with f = strength/10,
   * computed exactly; it lies between the two blended values.
   */
  function Blend(orig: int, mean: int, strength: int): (v: int)
    requires 1 <= strength <= 10
    ensures Min(orig, mean) <= v <= Max(orig, mean)
  {
    var lo, hi := Min(orig, mean), Max(orig, mean);
    MulMono(lo, orig, 10 - strength);
    MulMono(orig, hi, 10 - strength);
    MulMono(lo, mean, strength);
    MulMono(mean, hi, strength);
    RoundDivWithin(orig * (10 - strength) + mean * strength, 10, lo, hi);
    RoundDiv(orig * (10 - strength) + mean * strength, 10)
  }

  predicate InImage(w: nat, h: nat, px: int, py: int)
  {
    0 <= px < w && 0 <= py < h
  }

  /** Index of channel `c` of pixel (x, y) in a row-major RGBA buffer. */
  function Idx(w: nat, x: int, y: int, c: int): int
  {
    (y * w + x) * 4 + c
  }

  lemma IdxInRange(w: nat, h: nat, x: int, y: int, c: int)
    requires InImage(w, h, x, y) && 0 <= c < 4
    ensures 0 <= y * w + x < w * h
    ensures 0 <= Idx(w, x, y, c) < w * h * 4
  {
    MulMono(y, h - 1, w);
    assert (h - 1) * w == h * w - w;
  }

  lemma RowFits(w: nat, h: nat, y: int)
    requires 0 <= y < h
    ensures 0 <= y * w && y * w + w <= w * h && y * w + w == (y + 1) * w
  {
    MulMono(y + 1, h, w);
  }

  /** Splitting a pixel number into column and row. */
  lemma PixelOf(w: nat, h: nat, p: int)
    requires 0 <= p < w * h
    ensures w > 0 && InImage(w, h, p % w, p / w) && p == (p / w) * w + p % w
  {
    if p / w >= h {
      MulMono(h, p / w, w);
      assert false;
    }
  }

  /** The pixel number y*w + x has column x and row y. */
  lemma ColumnAndRow(w: nat, x: int, y: int)
    requires 0 <= x < w && 0 <= y
    ensures (y * w + x) / w == y && (y * w + x) % w == x
  {
    var p := y * w + x;
    var q, m := p / w, p % w;
    assert p == q * w + m && 0 <= m < w;
    if q < y {
      MulMono(q + 1, y, w);
      assert false;
    }
    if q > y {
      MulMono(y + 1, q, w);
      assert false;
    }
  }

  /** The channel value of an in-image pixel. */
  function At(src: seq<Byte>, w: nat, h: nat, px: int, py: int, c: int): Byte
    requires |src| == w * h * 4 && InImage(w, h, px, py) && 0 <= c < 4
  {
    IdxInRange(w, h, px, py, c);
    src[Idx(w, px, py, c)]
  }

  /**
   * The inner `kx` loop: channel `c` summed over the columns x-r .. x+k-1 of
   * row `yPos`, skipping columns outside the image.
   */
  function RowSum(src: seq<Byte>, w: nat, h: nat, x: int, yPos: int, r: nat, c: int, k: int): int
    requires |src| == w * h * 4 && 0 <= yPos < h && 0 <= c < 4 && 0 <= k + r
    decreases k + r
  {
    if k + r == 0 then 0
    else
      var xPos := x + k - 1;
      if xPos < 0 || xPos >= w then RowSum(src, w, h, x, yPos, r, c, k - 1)
      else RowSum(src, w, h, x, yPos, r, c, k - 1) + At(src, w, h, xPos, yPos, c)
  }

  /** How many columns x-r .. x+k-1 lie inside the image. */
  function RowCount(w: nat, x: int, r: nat, k: int): nat
    requires 0 <= k + r
    decreases k + r
  {
    if k + r == 0 then 0
    else
      var xPos := x + k - 1;
      if xPos < 0 || xPos >= w then RowCount(w, x, r, k - 1) else RowCount(w, x, r, k - 1) + 1
  }

  /** The outer `ky` loop: whole rows y-r .. y+k-1, skipping rows outside the image. */
  function WindowSum(src: seq<Byte>, w: nat, h: nat, x: int, y: int, r: nat, c: int, k: int): int
    requires |src| == w * h * 4 && 0 <= c < 4 && 0 <= k + r
    decreases k + r
  {
    if k + r == 0 then 0
    else
      var yPos := y + k - 1;
      if yPos < 0 || yPos >= h then WindowSum(src, w, h, x, y, r, c, k - 1)
      else WindowSum(src, w, h, x, y, r, c, k - 1) + RowSum(src, w, h, x, yPos, r, c, r + 1)
  }

  function WindowCount(w: nat, h: nat, x: int, y: int, r: nat, k: int): nat
    requires 0 <= k + r
    decreases k + r
  {
    if k + r == 0 then 0
    else
      var yPos := y + k - 1;
      if yPos < 0 || yPos >= h then WindowCount(w, h, x, y, r, k - 1)
      else WindowCount(w, h, x, y, r, k - 1) + RowCount(w, x, r, r + 1)
  }

  lemma {:induction false} RowCountBounds(w: nat, x: int, r: nat, k: int)
    requires 0 <= k + r
    ensures RowCount(w, x, r, k) <= k + r
    ensures 0 <= x < w && k >= 1 ==> RowCount(w, x, r, k) >= 1
    decreases k + r
  {
    if k + r > 0 {
      RowCountBounds(w, x, r, k - 1);
    }
  }

  lemma {:induction false} WindowCountBounds(w: nat, h: nat, x: int, y: int, r: nat, k: int)
    requires 0 <= k + r
    ensures WindowCount(w, h, x, y, r, k) <= (k + r) * (2 * r + 1)
    ensures InImage(w, h, x, y) && k >= 1 ==> WindowCount(w, h, x, y, r, k) >= 1
    decreases k + r
  {
    if k + r > 0 {
      WindowCountBounds(w, h, x, y, r, k - 1);
      RowCountBounds(w, x, r, r + 1);
      Distribute(2 * r + 1, k - 1 + r, 1);
      assert (k - 1 + r) * (2 * r + 1) + (2 * r + 1) == (k + r) * (2 * r + 1);
    }
  }

  /**
   * The centre pixel is always counted, so the mean is well defined, and at
   * most the full (2r+1)×(2r+1) square is.
   */
  lemma NeighbourCount(w: nat, h: nat, x: int, y: int, r: nat)
    requires InImage(w, h, x, y)
    ensures 1 <= WindowCount(w, h, x, y, r, r + 1) <= (2 * r + 1) * (2 * r + 1)
  {
    WindowCountBounds(w, h, x, y, r, r + 1);
  }

  /** Every in-image pixel of the (2r+1)×(2r+1) square around (x, y) has channel c in [lo, hi]. */
  ghost predicate NeighbourhoodWithin(src: seq<Byte>, w: nat, h: nat, x: int, y: int, r: nat, c: int, lo: int, hi: int)
    requires |src| == w * h * 4 && 0 <= c < 4
  {
    forall px, py :: InImage(w, h, px, py) && x - r <= px <= x + r && y - r <= py <= y + r ==>
      lo <= At(src, w, h, px, py, c) <= hi
  }

  lemma {:induction false} RowSumBounds(src: seq<Byte>, w: nat, h: nat, x: int, y: int, yPos: int, r: nat, c: int, k: int, lo: int, hi: int)
    requires |src| == w * h * 4 && 0 <= yPos < h && y - r <= yPos <= y + r && 0 <= c < 4 && 0 <= k + r && k <= r + 1
    requires NeighbourhoodWithin(src, w, h, x, y, r, c, lo, hi)
    ensures lo * RowCount(w, x, r, k) <= RowSum(src, w, h, x, yPos, r, c, k) <= hi * RowCount(w, x, r, k)
    decreases k + r
  {
    if k + r > 0 {
      RowSumBounds(src, w, h, x, y, yPos, r, c, k - 1, lo, hi);
      var xPos := x + k - 1;
      if 0 <= xPos < w {
        assert lo <= At(src, w, h, xPos, yPos, c) <= hi;
        Distribute(lo, RowCount(w, x, r, k - 1), 1);
        Distribute(hi, RowCount(w, x, r, k - 1), 1);
      }
    }
  }

  lemma {:induction false} WindowSumBounds(src: seq<Byte>, w: nat, h: nat, x: int, y: int, r: nat, c: int, k: int, lo: int, hi: int)
    requires |src| == w * h * 4 && 0 <= c < 4 && 0 <= k + r && k <= r + 1
    requires NeighbourhoodWithin(src, w, h, x, y, r, c, lo, hi)
    ensures lo * WindowCount(w, h, x, y, r, k) <= WindowSum(src, w, h, x, y, r, c, k)
                                              <= hi * WindowCount(w, h, x, y, r, k)
    decreases k + r
  {
    if k + r > 0 {
      WindowSumBounds(src, w, h, x, y, r, c, k - 1, lo, hi);
      var yPos := y + k - 1;
      if 0 <= yPos < h {
        RowSumBounds(src, w, h, x, y, yPos, r, c, r + 1, lo, hi);
        Distribute(lo, WindowCount(w, h, x, y, r, k - 1), RowCount(w, x, r, r + 1));
        Distribute(hi, WindowCount(w, h, x, y, r, k - 1), RowCount(w, x, r, r + 1));
      }
    }
  }

  /** The blurred channel: the rounded mean of the clipped neighbourhood. */
  function Blurred(src: seq<Byte>, w: nat, h: nat, x: int, y: int, r: nat, c: int): (m: int)
    requires |src| == w * h * 4 && InImage(w, h, x, y) && 0 <= c < 4
    ensures 0 <= m <= 255
  {
    NeighbourCount(w, h, x, y, r);
    WindowSumBounds(src, w, h, x, y, r, c, r + 1, 0, 255);
    RoundDivWithin(WindowSum(src, w, h, x, y, r, c, r + 1), WindowCount(w, h, x, y, r, r + 1), 0, 255);
    RoundDiv(WindowSum(src, w, h, x, y, r, c, r + 1), WindowCount(w, h, x, y, r, r + 1))
  }

  /** The blurred value lies between the smallest and largest value of its neighbourhood. */
  lemma BlurredWithinNeighbourhood(src: seq<Byte>, w: nat, h: nat, x: int, y: int, r: nat, c: int, lo: int, hi: int)
    requires |src| == w * h * 4 && InImage(w, h, x, y) && 0 <= c < 4
    requires NeighbourhoodWithin(src, w, h, x, y, r, c, lo, hi)
    ensures lo <= Blurred(src, w, h, x, y, r, c) <= hi
  {
    NeighbourCount(w, h, x, y, r);
    WindowSumBounds(src, w, h, x, y, r, c, r + 1, lo, hi);
    RoundDivWithin(WindowSum(src, w, h, x, y, r, c, r + 1), WindowCount(w, h, x, y, r, r + 1), lo, hi);
  }

  /** The blurred value for byte `i` of the source: its channel, at the pixel the byte belongs to. */
  function MeanFor(src: seq<Byte>, w: nat, h: nat, strength: int, i: int): (m: int)
    requires |src| == w * h * 4 && 1 <= strength <= 10 && 0 <= i < |src|
    ensures 0 <= m <= 255
  {
    var p := i / 4;
    PixelOf(w, h, p);
    Blurred(src, w, h, p % w, p / w, Radius(strength), i % 4)
  }

  /**
   * Byte `i` of the buffer after noise reduction: alpha bytes keep the value of
   * the destination buffer, RGB bytes are the blend of the source byte with the
   * blurred source channel, so they lie between the two.
   */
  function ReducedByte(src: seq<Byte>, dst: seq<Byte>, w: nat, h: nat, strength: int, i: int): (b: Byte)
    requires |src| == w * h * 4 && |dst| == |src| && 1 <= strength <= 10 && 0 <= i < |dst|
    ensures i % 4 == 3 ==> b == dst[i]
    ensures i % 4 != 3 ==> Min(src[i], MeanFor(src, w, h, strength, i)) <= b <= Max(src[i], MeanFor(src, w, h, strength, i))
  {
    if i % 4 == 3 then dst[i]
    else Blend(src[i], MeanFor(src, w, h, strength, i), strength)
  }

  /**
   * The whole buffer after noise reduction: a pure per-pixel map of the source
   * of the same size, in which every alpha byte is the destination's.
   */
  function NoiseReduced(src: seq<Byte>, dst: seq<Byte>, w: nat, h: nat, strength: int): (out: seq<Byte>)
    requires |src| == w * h * 4 && |dst| == |src| && 1 <= strength <= 10
    ensures |out| == |dst|
    ensures forall i :: 0 <= i < |out| && i % 4 == 3 ==> out[i] == dst[i]
  {
    seq(|dst|, i requires 0 <= i < |dst| => ReducedByte(src, dst, w, h, strength, i))
  }

  /** The reduction never touches an alpha byte. */
  lemma AlphaUntouched(src: seq<Byte>, dst: seq<Byte>, w: nat, h: nat, strength: int, p: int)
    requires |src| == w * h * 4 && |dst| == |src| && 1 <= strength <= 10 && 0 <= p < w * h
    ensures NoiseReduced(src, dst, w, h, strength)[4 * p + 3] == dst[4 * p + 3]
  {
    assert (4 * p + 3) % 4 == 3;
    assert NoiseReduced(src, dst, w, h, strength)[4 * p + 3] == ReducedByte(src, dst, w, h, strength, 4 * p + 3);
  }

  /** Every output RGB byte lies between the source byte and the blurred value. */
  lemma OutputBetweenSourceAndMean(src: seq<Byte>, dst: seq<Byte>, w: nat, h: nat, strength: int, x: int, y: int, c: int)
    requires |src| == w * h * 4 && |dst| == |src| && 1 <= strength <= 10
    requires InImage(w, h, x, y) && 0 <= c < 3
    ensures 0 <= Idx(w, x, y, c) < |dst|
    ensures var out := NoiseReduced(src, dst, w, h, strength)[Idx(w, x, y, c)];
            var m := Blurred(src, w, h, x, y, Radius(strength), c);
            Min(At(src, w, h, x, y, c), m) <= out <= Max(At(src, w, h, x, y, c), m)
  {
    IdxInRange(w, h, x, y, c);
    ColumnAndRow(w, x, y);
    assert Idx(w, x, y, c) / 4 == y * w + x;
  }

  /** Radius 0 leaves exactly the pixel itself in its neighbourhood. */
  lemma RadiusZeroMean(src: seq<Byte>, w: nat, h: nat, x: int, y: int, c: int)
    requires |src| == w * h * 4 && InImage(w, h, x, y) && 0 <= c < 4
    ensures Blurred(src, w, h, x, y, 0, c) == At(src, w, h, x, y, c)
  {
    assert RowSum(src, w, h, x, y, 0, c, 1) == At(src, w, h, x, y, c);
    assert RowCount(w, x, 0, 1) == 1;
    assert WindowSum(src, w, h, x, y, 0, c, 1) == At(src, w, h, x, y, c);
    assert WindowCount(w, h, x, y, 0, 1) == 1;
  }

  /**
   * Strength 1: radius 0, so the blurred value is the pixel and every RGB byte
   * of the output is the copy's, whatever the canvas buffer holds.
   */
  lemma StrengthOneRGB(src: seq<Byte>, dst: seq<Byte>, w: nat, h: nat, i: int)
    requires |src| == w * h * 4 && |dst| == |src| && 0 <= i < |src| && i % 4 != 3
    ensures NoiseReduced(src, dst, w, h, 1)[i] == src[i]
  {
    var c, p := i % 4, i / 4;
    PixelOf(w, h, p);
    var x, y := p % w, p / w;
    RadiusZeroMean(src, w, h, x, y, c);
    assert Idx(w, x, y, c) == i;
  }

  /** With the canvas buffer equal to the copy, strength 1 returns the copy itself. */
  lemma StrengthOneIsIdentity(src: seq<Byte>, w: nat, h: nat)
    requires |src| == w * h * 4
    ensures NoiseReduced(src, src, w, h, 1) == src
  {
    var out := NoiseReduced(src, src, w, h, 1);
    forall i | 0 <= i < |src|
      ensures out[i] == src[i]
    {
      if i % 4 != 3 {
        StrengthOneRGB(src, src, w, h, i);
      }
    }
  }

  /** Strength 10: factor 1, so every RGB byte is the rounded mean of its clipped 11×11 neighbourhood. */
  lemma StrengthTenIsMean(src: seq<Byte>, dst: seq<Byte>, w: nat, h: nat, x: int, y: int, c: int)
    requires |src| == w * h * 4 && |dst| == |src| && InImage(w, h, x, y) && 0 <= c < 3
    ensures 0 <= Idx(w, x, y, c) < |dst|
    ensures NoiseReduced(src, dst, w, h, 10)[Idx(w, x, y, c)] == Blurred(src, w, h, x, y, 5, c)
  {
    IdxInRange(w, h, x, y, c);
    ColumnAndRow(w, x, y);
    assert Idx(w, x, y, c) / 4 == y * w + x;
  }

  /** The four bytes of pixel (x, y) in the reduced buffer. */
  lemma ReducedPixel(src: seq<Byte>, dst: seq<Byte>, w: nat, h: nat, strength: int, x: int, y: int)
    requires |src| == w * h * 4 && |dst| == |src| && 1 <= strength <= 10 && InImage(w, h, x, y)
    ensures 0 <= (y * w + x) * 4 && (y * w + x) * 4 + 3 < |dst|
    ensures var out, idx := NoiseReduced(src, dst, w, h, strength), (y * w + x) * 4;
            && out[idx] == Blend(src[idx], Blurred(src, w, h, x, y, Radius(strength), 0), strength)
            && out[idx + 1] == Blend(src[idx + 1], Blurred(src, w, h, x, y, Radius(strength), 1), strength)
            && out[idx + 2] == Blend(src[idx + 2], Blurred(src, w, h, x, y, Radius(strength), 2), strength)
            && out[idx + 3] == dst[idx + 3]
  {
    IdxInRange(w, h, x, y, 3);
    ReducedChannel(src, dst, w, h, strength, x, y, 0);
    ReducedChannel(src, dst, w, h, strength, x, y, 1);
    ReducedChannel(src, dst, w, h, strength, x, y, 2);
    AlphaUntouched(src, dst, w, h, strength, y * w + x);
  }

  lemma ReducedChannel(src: seq<Byte>, dst: seq<Byte>, w: nat, h: nat, strength: int, x: int, y: int, c: int)
    requires |src| == w * h * 4 && |dst| == |src| && 1 <= strength <= 10 && InImage(w, h, x, y) && 0 <= c < 3
    ensures 0 <= Idx(w, x, y, c) < |dst|
    ensures NoiseReduced(src, dst, w, h, strength)[Idx(w, x, y, c)]
            == Blend(src[Idx(w, x, y, c)], Blurred(src, w, h, x, y, Radius(strength), c), strength)
  {
    IdxInRange(w, h, x, y, c);
    ColumnAndRow(w, x, y);
    assert Idx(w, x, y, c) / 4 == y * w + x && Idx(w, x, y, c) % 4 == c;
  }

  /**
   * The neighbourhood loops inside the pixel loop: the rounded mean of each RGB channel over
   * the in-image part of the (2·radius+1)² square around (x, y). Rows and
   * columns outside the image are skipped, so they count neither in the sums
   * nor in `count`.
   */
  method BoxMean(tempData: array<Byte>, width: nat, height: nat, x: int, y: int, radius: int)
    returns (r: int, g: int, b: int)
    requires tempData.Length == width * height * 4 && InImage(width, height, x, y) && 0 <= radius
    ensures r == Blurred(tempData[..], width, height, x, y, radius, 0)
    ensures g == Blurred(tempData[..], width, height, x, y, radius, 1)
    ensures b == Blurred(tempData[..], width, height, x, y, radius, 2)
  {
    ghost var src := tempData[..];
    var count := 0;
    r, g, b := 0, 0, 0;
    for ky := -radius to radius + 1
      invariant r == WindowSum(src, width, height, x, y, radius, 0, ky)
      invariant g == WindowSum(src, width, height, x, y, radius, 1, ky)
      invariant b == WindowSum(src, width, height, x, y, radius, 2, ky)
      invariant count == WindowCount(width, height, x, y, radius, ky)
    {
      var yPos := y + ky;
      if yPos < 0 || yPos >= height {
        continue;
      }
      for kx := -radius to radius + 1
        invariant r == WindowSum(src, width, height, x, y, radius, 0, ky) + RowSum(src, width, height, x, yPos, radius, 0, kx)
        invariant g == WindowSum(src, width, height, x, y, radius, 1, ky) + RowSum(src, width, height, x, yPos, radius, 1, kx)
        invariant b == WindowSum(src, width, height, x, y, radius, 2, ky) + RowSum(src, width, height, x, yPos, radius, 2, kx)
        invariant count == WindowCount(width, height, x, y, radius, ky) + RowCount(width, x, radius, kx)
      {
        var xPos := x + kx;
        if xPos < 0 || xPos >= width {
          continue;
        }
        IdxInRange(width, height, xPos, yPos, 2);
        var idxNeighbor := (yPos * width + xPos) * 4;
        r := r + tempData[idxNeighbor];
        g := g + tempData[idxNeighbor + 1];
        b := b + tempData[idxNeighbor + 2];
        count := count + 1;
      }
    }
    NeighbourCount(width, height, x, y, radius);
    r := RoundDiv(r, count);
    g := RoundDiv(g, count);
    b := RoundDiv(b, count);
  }

  /** The four bytes of pixel (x, y) of `out` are those of the reduced buffer. */
  ghost predicate PixelReduced(out: seq<Byte>, src: seq<Byte>, dst: seq<Byte>, w: nat, h: nat, strength: int, x: int, y: int)
    requires |src| == w * h * 4 && |dst| == |src| && |out| == |dst| && 1 <= strength <= 10 && InImage(w, h, x, y)
  {
    IdxInRange(w, h, x, y, 3);
    var idx := (y * w + x) * 4;
    && out[idx] == Blend(src[idx], Blurred(src, w, h, x, y, Radius(strength), 0), strength)
    && out[idx + 1] == Blend(src[idx + 1], Blurred(src, w, h, x, y, Radius(strength), 1), strength)
    && out[idx + 2] == Blend(src[idx + 2], Blurred(src, w, h, x, y, Radius(strength), 2), strength)
    && out[idx + 3] == dst[idx + 3]
  }

  ghost predicate AllPixelsReduced(out: seq<Byte>, src: seq<Byte>, dst: seq<Byte>, w: nat, h: nat, strength: int)
    requires |src| == w * h * 4 && |dst| == |src| && 1 <= strength <= 10
  {
    |out| == |dst| &&
    forall x, y :: InImage(w, h, x, y) ==> PixelReduced(out, src, dst, w, h, strength, x, y)
  }

  /** The reduced buffer is the one and only buffer whose every pixel is reduced. */
  lemma ReducedIsUnique(out: seq<Byte>, src: seq<Byte>, dst: seq<Byte>, w: nat, h: nat, strength: int)
    requires |src| == w * h * 4 && |dst| == |src| && 1 <= strength <= 10
    ensures AllPixelsReduced(out, src, dst, w, h, strength) <==> out == NoiseReduced(src, dst, w, h, strength)
  {
    var expected := NoiseReduced(src, dst, w, h, strength);
    forall x, y | InImage(w, h, x, y)
      ensures PixelReduced(expected, src, dst, w, h, strength, x, y)
    {
      ReducedPixel(src, dst, w, h, strength, x, y);
    }
    if AllPixelsReduced(out, src, dst, w, h, strength) {
      forall i | 0 <= i < |out|
        ensures out[i] == expected[i]
      {
        var p := i / 4;
        PixelOf(w, h, p);
        var x, y := p % w, p / w;
        assert PixelReduced(out, src, dst, w, h, strength, x, y);
        assert PixelReduced(expected, src, dst, w, h, strength, x, y);
        assert i == (y * w + x) * 4 + i % 4;
      }
    }
  }

  /**
   * The body of the pixel loop: the box mean around (x, y) blended into the
   * three RGB bytes of that pixel; every other byte, alpha included, stays.
   */
  method ReducePixel(data: array<Byte>, tempData: array<Byte>, width: nat, height: nat,
                     strength: int, x: int, y: int)
    requires data != tempData
    requires data.Length == width * height * 4 && tempData.Length == data.Length
    requires 1 <= strength <= 10 && InImage(width, height, x, y)
    modifies data
    ensures var idx := (y * width + x) * 4;
            && 0 <= idx && idx + 3 < data.Length
            && data[idx] == Blend(tempData[idx], Blurred(tempData[..], width, height, x, y, Radius(strength), 0), strength)
            && data[idx + 1] == Blend(tempData[idx + 1], Blurred(tempData[..], width, height, x, y, Radius(strength), 1), strength)
            && data[idx + 2] == Blend(tempData[idx + 2], Blurred(tempData[..], width, height, x, y, Radius(strength), 2), strength)
            && forall i :: 0 <= i < data.Length && (i < idx || idx + 3 <= i) ==> data[i] == old(data[i])
  {
    IdxInRange(width, height, x, y, 3);
    var idx := (y * width + x) * 4;
    var r, g, b := BoxMean(tempData, width, height, x, y, strength / 2);
    data[idx] := Blend(tempData[idx], r, strength);
    data[idx + 1] := Blend(tempData[idx + 1], g, strength);
    data[idx + 2] := Blend(tempData[idx + 2], b, strength);
    // the alpha byte idx + 3 is left as it is
  }

  /**
   * One pass of the `x` loop: the pixels of row `y` are reduced, those before
   * the row already hold their final value and those after it are untouched.
   */
  method ReduceRow(data: array<Byte>, tempData: array<Byte>, width: nat, height: nat,
                   strength: int, y: int, ghost expected: seq<Byte>, ghost dst: seq<Byte>)
    requires data != tempData
    requires data.Length == width * height * 4 && tempData.Length == data.Length && |dst| == data.Length
    requires 1 <= strength <= 10 && 0 <= y < height && y * width + width <= width * height
    requires AllPixelsReduced(expected, tempData[..], dst, width, height, strength)
    requires forall i :: 0 <= i < 4 * (y * width) ==> data[i] == expected[i]
    requires forall i :: 4 * (y * width) <= i < data.Length ==> data[i] == dst[i]
    modifies data
    ensures forall i :: 0 <= i < 4 * (y * width + width) ==> data[i] == expected[i]
    ensures forall i :: 4 * (y * width + width) <= i < data.Length ==> data[i] == dst[i]
  {
    for x := 0 to width
      invariant forall i :: 0 <= i < 4 * (y * width + x) ==> data[i] == expected[i]
      invariant forall i :: 4 * (y * width + x) <= i < data.Length ==> data[i] == dst[i]
    {
      assert PixelReduced(expected, tempData[..], dst, width, height, strength, x, y);
      ReducePixel(data, tempData, width, height, strength, x, y);
    }
  }

  /**
   * The two pixel loops of `applyNoiseReduction`, row after row, against any
   * buffer `expected` that describes the result pixel by pixel.
   */
  method ReduceRows(data: array<Byte>, tempData: array<Byte>, width: nat, height: nat,
                    strength: int, ghost expected: seq<Byte>)
    requires data != tempData
    requires data.Length == width * height * 4 && tempData.Length == data.Length
    requires 1 <= strength <= 10
    requires AllPixelsReduced(expected, tempData[..], data[..], width, height, strength)
    modifies data
    ensures data[..] == expected
  {
    ghost var dst := data[..];
    for y := 0 to height
      invariant forall i :: 0 <= i < 4 * (y * width) ==> data[i] == expected[i]
      invariant forall i :: 4 * (y * width) <= i < data.Length ==> data[i] == dst[i]
    {
      RowFits(width, height, y);
      ReduceRow(data, tempData, width, height, strength, y, expected, dst);
      assert y * width + width == (y + 1) * width;
    }
  }

  /**
   * `applyNoiseReduction`. `data` is the canvas buffer written in place and
   * `tempData` the separate buffer holding the original image; `loaded` says
   * whether both the canvas and the image are present. Without them nothing
   * changes; otherwise `data` becomes the pure per-pixel map of `tempData`,
   * whatever order the pixels are visited in.
   */
  method ApplyNoiseReduction(data: array<Byte>, tempData: array<Byte>, width: nat, height: nat,
                             strength: int, loaded: bool)
    requires data != tempData
    requires data.Length == width * height * 4 && tempData.Length == data.Length
    requires 1 <= strength <= 10
    modifies data
    ensures !loaded ==> data[..] == old(data[..])
    ensures loaded ==> data[..] == NoiseReduced(tempData[..], old(data[..]), width, height, strength)
  {
    if !loaded {
      return;
    }
    ghost var expected := NoiseReduced(tempData[..], data[..], width, height, strength);
    ReducedIsUnique(expected, tempData[..], data[..], width, height, strength);
    ReduceRows(data, tempData, width, height, strength, expected);
  }
}
