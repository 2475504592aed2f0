/**
 * The block average of the free-drawing tool's mosaic mode: the RGBA bytes of
 * a square block are summed per colour channel, each sum is floor-divided by
 * the block area, and every pixel is overwritten with the averages and an
 * opaque alpha.  A buffer is a flat sequence of bytes, four per pixel
 * (red, green, blue, alpha), as in a canvas `ImageData`.
 */
module Mosaic {

  const RED: nat := 0
  const GREEN: nat := 1
  const BLUE: nat := 2
  const ALPHA: nat := 3

  /** Alpha written into every averaged pixel. */
  const OPAQUE: int := 255

  /** Every entry is a byte value. */
  predicate AreBytes(data: seq<int>)
  {
    forall j :: 0 <= j < |data| ==> 0 <= data[j] <= 255
  }

  /** Sum of channel `c` over the first `n` pixels. */
  function ChannelSum(data: seq<int>, c: nat, n: nat): int
    requires c < 4 && 4 * n <= |data|
  {
    if n == 0 then 0 else ChannelSum(data, c, n - 1) + data[4 * (n - 1) + c]
  }

  /**
   * The average of channel `c`: its sum over the whole buffer floor-divided
   * by the block area (Dafny's `/` by a positive divisor is the floor of the
   * quotient, as `Math.floor(sum / area)` is).
   */
  function Average(data: seq<int>, c: nat, blockSize: int): (r: int)
    requires c < 4 && blockSize > 0 && |data| % 4 == 0
    ensures r * (blockSize * blockSize) <= ChannelSum(data, c, |data| / 4) < (r + 1) * (blockSize * blockSize)
  {
    ChannelSum(data, c, |data| / 4) / (blockSize * blockSize)
  }

  /** `n` pixels all equal to `pixel`. */
  function Uniform(n: nat, pixel: seq<int>): (r: seq<int>)
    requires |pixel| == 4
    ensures |r| == 4 * n
  {
    seq(4 * n, j requires 0 <= j < 4 * n => pixel[j % 4])
  }

  /** The buffer after a mosaic step: every pixel holds the three averages and an opaque alpha. */
  function Pixelated(data: seq<int>, blockSize: int): (r: seq<int>)
    requires blockSize > 0 && |data| % 4 == 0
    ensures |r| == |data|
  {
    Uniform(|data| / 4, [Average(data, RED, blockSize), Average(data, GREEN, blockSize),
                         Average(data, BLUE, blockSize), OPAQUE])
  }

  /** The first loop of the mouse-move handler: the red, green and blue sums over the buffer. */
  method SumChannels(data: array<int>) returns (r: int, g: int, b: int)
    requires data.Length % 4 == 0
    ensures r == ChannelSum(data[..], RED, data.Length / 4)
    ensures g == ChannelSum(data[..], GREEN, data.Length / 4)
    ensures b == ChannelSum(data[..], BLUE, data.Length / 4)
  {
    r, g, b := 0, 0, 0;
    var i := 0;
    while i < data.Length
      invariant 0 <= i <= data.Length && i % 4 == 0
      invariant r == ChannelSum(data[..], RED, i / 4)
      invariant g == ChannelSum(data[..], GREEN, i / 4)
      invariant b == ChannelSum(data[..], BLUE, i / 4)
    {
      r := r + data[i];
      g := g + data[i + 1];
      b := b + data[i + 2];
      i := i + 4;
    }
  }

  /** The second loop: every pixel becomes `(r, g, b, 255)`. */
  method FillBlock(data: array<int>, r: int, g: int, b: int)
    requires data.Length % 4 == 0
    modifies data
    ensures data[..] == Uniform(data.Length / 4, [r, g, b, OPAQUE])
  {
    var i := 0;
    while i < data.Length
      invariant 0 <= i <= data.Length && i % 4 == 0
      invariant forall j :: 0 <= j < i ==> data[j] == [r, g, b, OPAQUE][j % 4]
    {
      data[i] := r;
      data[i + 1] := g;
      data[i + 2] := b;
      data[i + 3] := OPAQUE;
      i := i + 4;
    }
    assert data[..] == Uniform(data.Length / 4, [r, g, b, OPAQUE]);
  }

  // ---------------------------------------------------------------------
  // Properties
  // ---------------------------------------------------------------------

  /** Pixel `k` of a uniform buffer is the given pixel. */
  lemma UniformAt(n: nat, pixel: seq<int>, k: nat, c: nat)
    requires |pixel| == 4 && k < n && c < 4
    ensures Uniform(n, pixel)[4 * k + c] == pixel[c]
  {
    assert (4 * k + c) % 4 == c;
  }

  /**
   * Every pixel of the result carries the floor of each colour sum over the
   * block area, with alpha 255, and the buffer keeps its length.
   */
  lemma PixelatedPixel(data: seq<int>, blockSize: int, k: nat)
    requires blockSize > 0 && |data| % 4 == 0 && 4 * k < |data|
    ensures var r := Pixelated(data, blockSize);
      var area := blockSize * blockSize;
      |r| == |data| &&
      r[4 * k + RED] == ChannelSum(data, RED, |data| / 4) / area &&
      r[4 * k + GREEN] == ChannelSum(data, GREEN, |data| / 4) / area &&
      r[4 * k + BLUE] == ChannelSum(data, BLUE, |data| / 4) / area &&
      r[4 * k + ALPHA] == OPAQUE
  {
    var avg := [Average(data, RED, blockSize), Average(data, GREEN, blockSize),
                Average(data, BLUE, blockSize), OPAQUE];
    UniformAt(|data| / 4, avg, k, RED);
    UniformAt(|data| / 4, avg, k, GREEN);
    UniformAt(|data| / 4, avg, k, BLUE);
    UniformAt(|data| / 4, avg, k, ALPHA);
  }

  /** Channel sums depend only on that channel's bytes. */
  lemma {:induction false} ChannelSumOnlyReadsChannel(s: seq<int>, t: seq<int>, c: nat, n: nat)
    requires c < 4 && 4 * n <= |s| && 4 * n <= |t|
    requires forall k :: 0 <= k < n ==> s[4 * k + c] == t[4 * k + c]
    ensures ChannelSum(s, c, n) == ChannelSum(t, c, n)
  {
    if n > 0 {
      ChannelSumOnlyReadsChannel(s, t, c, n - 1);
      assert s[4 * (n - 1) + c] == t[4 * (n - 1) + c];
    }
  }

  /** The input alpha bytes do not affect the result. */
  lemma AlphaIsIgnored(s: seq<int>, t: seq<int>, blockSize: int)
    requires blockSize > 0 && |s| % 4 == 0 && |s| == |t|
    requires forall j :: 0 <= j < |s| && j % 4 != ALPHA ==> s[j] == t[j]
    ensures Pixelated(s, blockSize) == Pixelated(t, blockSize)
  {
    SameColourChannel(s, t, RED);
    SameColourChannel(s, t, GREEN);
    SameColourChannel(s, t, BLUE);
    assert [Average(s, RED, blockSize), Average(s, GREEN, blockSize), Average(s, BLUE, blockSize), OPAQUE]
        == [Average(t, RED, blockSize), Average(t, GREEN, blockSize), Average(t, BLUE, blockSize), OPAQUE];
  }

  /** Two buffers that agree outside the alpha bytes have the same colour sums. */
  lemma SameColourChannel(s: seq<int>, t: seq<int>, c: nat)
    requires c < ALPHA && |s| % 4 == 0 && |s| == |t|
    requires forall j :: 0 <= j < |s| && j % 4 != ALPHA ==> s[j] == t[j]
    ensures ChannelSum(s, c, |s| / 4) == ChannelSum(t, c, |t| / 4)
  {
    forall k | 0 <= k < |s| / 4
      ensures s[4 * k + c] == t[4 * k + c]
    {
      assert (4 * k + c) % 4 == c;
    }
    ChannelSumOnlyReadsChannel(s, t, c, |s| / 4);
  }

  /** Over byte values, a channel sum of `n` pixels lies in `[0, 255 * n]`. */
  lemma {:induction false} ChannelSumBounds(s: seq<int>, c: nat, n: nat)
    requires c < 4 && 4 * n <= |s| && AreBytes(s)
    ensures 0 <= ChannelSum(s, c, n) <= 255 * n
  {
    if n > 0 {
      ChannelSumBounds(s, c, n - 1);
      assert 0 <= s[4 * (n - 1) + c] <= 255;
    }
  }

  /** Multiplying by a positive factor keeps a strict order. */
  lemma MulStrict(d: int, x: int, y: int)
    requires d > 0 && x < y
    ensures d * x < d * y
  {
  }

  /** A positive factor can be cancelled from both sides of `<=`. */
  lemma MulCancel(d: int, a: int, b: int)
    requires d > 0 && d * a <= d * b
    ensures a <= b
  {
    if b < a {
      MulStrict(d, b, a);
    }
  }

  /** A floor quotient of a value in `[0, 255 * d]` by `d` is a byte. */
  lemma DivIsByte(sum: int, d: int)
    requires d > 0 && 0 <= sum <= 255 * d
    ensures 0 <= sum / d <= 255
  {
    var q := sum / d;
    assert d * q <= sum;
    MulCancel(d, q, 255);
  }

  /** Floor-dividing a multiple of `d` by `d` gives the other factor back. */
  lemma MulDivCancel(d: int, v: int)
    requires d > 0
    ensures (d * v) / d == v
  {
    var q := (d * v) / d;
    var m := (d * v) % d;
    assert d * v == d * q + m && 0 <= m < d;
    if q < v {
      MulStrict(d, q, v - 1);
    } else if v < q {
      MulStrict(d, v, q - 1);
    }
  }

  /** When the buffer holds exactly one block of bytes, the averages are bytes too. */
  lemma PixelatedAreBytes(s: seq<int>, blockSize: int)
    requires blockSize > 0 && |s| == 4 * (blockSize * blockSize) && AreBytes(s)
    ensures AreBytes(Pixelated(s, blockSize))
  {
    var area := blockSize * blockSize;
    forall c: nat | c < 3
      ensures 0 <= Average(s, c, blockSize) <= 255
    {
      ChannelSumBounds(s, c, area);
      DivIsByte(ChannelSum(s, c, area), area);
    }
    var r := Pixelated(s, blockSize);
    forall j | 0 <= j < |r|
      ensures 0 <= r[j] <= 255
    {
      PixelatedPixel(s, blockSize, j / 4);
      assert j == 4 * (j / 4) + j % 4;
    }
  }

  /** A channel of a uniform buffer sums to the pixel count times the channel value. */
  lemma {:induction false} ChannelSumUniform(n: nat, pixel: seq<int>, c: nat, k: nat)
    requires |pixel| == 4 && c < 4 && k <= n
    ensures ChannelSum(Uniform(n, pixel), c, k) == k * pixel[c]
  {
    if k > 0 {
      ChannelSumUniform(n, pixel, c, k - 1);
      UniformAt(n, pixel, k - 1, c);
      assert ChannelSum(Uniform(n, pixel), c, k) == (k - 1) * pixel[c] + pixel[c];
      SuccMul(k - 1, pixel[c]);
    }
  }

  lemma SuccMul(m: int, v: int)
    ensures (m + 1) * v == m * v + v
  {
  }

  /** A uniform block `(R, G, B, A)` becomes `(R, G, B, 255)` everywhere. */
  lemma UniformBlockKeepsColour(blockSize: int, pixel: seq<int>)
    requires blockSize > 0 && |pixel| == 4
    ensures var area := blockSize * blockSize;
      Pixelated(Uniform(area, pixel), blockSize) == Uniform(area, [pixel[RED], pixel[GREEN], pixel[BLUE], OPAQUE])
  {
    var area := blockSize * blockSize;
    var s := Uniform(area, pixel);
    assert |s| / 4 == area;
    forall c: nat | c < 3
      ensures Average(s, c, blockSize) == pixel[c]
    {
      ChannelSumUniform(area, pixel, c, area);
      MulDivCancel(area, pixel[c]);
    }
  }

  /** Averaging a block that was just averaged changes nothing. */
  lemma PixelateIsIdempotent(s: seq<int>, blockSize: int)
    requires blockSize > 0 && |s| == 4 * (blockSize * blockSize)
    ensures Pixelated(Pixelated(s, blockSize), blockSize) == Pixelated(s, blockSize)
  {
    var area := blockSize * blockSize;
    var avg := [Average(s, RED, blockSize), Average(s, GREEN, blockSize), Average(s, BLUE, blockSize), OPAQUE];
    assert Pixelated(s, blockSize) == Uniform(area, avg);
    UniformBlockKeepsColour(blockSize, avg);
    assert [avg[RED], avg[GREEN], avg[BLUE], OPAQUE] == avg;
  }
}
