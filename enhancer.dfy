/**
 * `enhanceImage`: the decision whether a (cropped) image needs a brightness
 * or contrast boost, and the in-place pass over its RGBA buffer.
 */
module Enhancer {
  import opened Wrappers
  import ImageStats

  const BrightnessThreshold: real := 0.4
  const ContrastThreshold: real := 0.2

  /**
   * `brightness < 0.4 ? (0.5 - brightness) * 1.5 : 0`. A NaN brightness
   * (`None`, from an empty buffer) fails the comparison.
   */
  function BrightnessFactor(brightness: Option<real>): (f: real)
    ensures f > 0.0 <==> brightness.Some? && brightness.value < BrightnessThreshold
    ensures f <= 0.0 ==> f == 0.0
  {
    if brightness.Some? && brightness.value < BrightnessThreshold then (0.5 - brightness.value) * 1.5 else 0.0
  }

  /** `contrast < 0.2 ? (0.3 - contrast) * 2 : 0`, NaN again failing the comparison. */
  function ContrastFactor(contrast: Option<real>): (f: real)
    ensures f > 0.0 <==> contrast.Some? && contrast.value < ContrastThreshold
    ensures f <= 0.0 ==> f == 0.0
  {
    if contrast.Some? && contrast.value < ContrastThreshold then (0.3 - contrast.value) * 2.0 else 0.0
  }

  /** `brightness < 0.4 || contrast < 0.2`: some factor is active. */
  function NeedsEnhancement(brightness: Option<real>, contrast: Option<real>): (r: bool)
    ensures r <==> BrightnessFactor(brightness) > 0.0 || ContrastFactor(contrast) > 0.0
  {
    (brightness.Some? && brightness.value < BrightnessThreshold)
    || (contrast.Some? && contrast.value < ContrastThreshold)
  }

  /** Rounding to the nearest integer, ties to the even neighbour. */
  function RoundHalfEven(x: real): (n: int)
    ensures x - 0.5 <= n as real <= x + 0.5
    ensures x.Floor <= n <= x.Floor + 1
  {
    var f := x.Floor;
    var d := x - f as real;
    if d < 0.5 then f else if d > 0.5 then f + 1 else if f % 2 == 0 then f else f + 1
  }

  /**
   * Storing a number into a `Uint8ClampedArray` (ToUint8Clamp): values at
   * or below 0 become 0, at or above 255 become 255, the rest are rounded
   * half to even.
   */
  function Store(x: real): (n: int)
    ensures 0 <= n <= 255
    ensures x <= 0.0 ==> n == 0
    ensures x >= 255.0 ==> n == 255
    ensures 0.0 <= x <= 255.0 ==> x - 0.5 <= n as real <= x + 0.5
  {
    if x <= 0.0 then 0 else if x >= 255.0 then 255 else RoundHalfEven(x)
  }

  /** Byte values are stored as they are. */
  lemma StoreKeepsBytes(n: int)
    requires 0 <= n <= 255
    ensures Store(n as real) == n
  {
    assert (n as real).Floor == n;
  }

  /** A larger number never stores as a smaller byte. */
  lemma StoreMonotone(x: real, y: real)
    requires x <= y
    ensures Store(x) <= Store(y)
  {
    if 0.0 < x && y < 255.0 {
      var fx, fy := x.Floor, y.Floor;
      assert fx <= fy;
      if fx == fy {
        var dx, dy := x - fx as real, y - fy as real;
        assert dx <= dy;
      }
    }
  }

  function Min(a: real, b: real): real { if a <= b then a else b }
  function Max(a: real, b: real): real { if a >= b then a else b }

  /** The brightness step for one channel: `min(255, c + factor * 255)`, stored. */
  function Brighten(c: int, brightnessFactor: real): int {
    Store(Min(255.0, c as real + brightnessFactor * 255.0))
  }

  /**
   * The contrast step for one channel: the line through (128, 128) with
   * slope `1 + contrastFactor`, clamped to [0, 255], stored.
   */
  function Stretch(c: int, contrastFactor: real): int {
    Store(Max(0.0, Min(255.0, StretchLine(c as real, contrastFactor))))
  }

  /** `c * factor + intercept` with `factor = 1 + contrastFactor`, `intercept = 128 * (1 - factor)`. */
  function StretchLine(c: real, contrastFactor: real): real {
    var factor := 1.0 + contrastFactor;
    var intercept := 128.0 * (1.0 - factor);
    c * factor + intercept
  }

  /** The stretch line moves a value away from 128 by `contrastFactor` times its distance. */
  lemma StretchLineOffset(c: real, contrastFactor: real)
    ensures StretchLine(c, contrastFactor) == c + (c - 128.0) * contrastFactor
  {
  }

  /**
   * One colour channel after the loop body: brightened when the brightness
   * factor is positive, then (re-read and) stretched when the contrast
   * factor is positive.
   */
  function Channel(c: int, brightnessFactor: real, contrastFactor: real): int {
    var v := if brightnessFactor > 0.0 then Brighten(c, brightnessFactor) else c;
    if contrastFactor > 0.0 then Stretch(v, contrastFactor) else v
  }

  /** Every channel the loop writes is a byte. */
  lemma ChannelInByteRange(c: int, brightnessFactor: real, contrastFactor: real)
    requires 0 <= c <= 255
    ensures 0 <= Channel(c, brightnessFactor, contrastFactor) <= 255
  {
  }

  /** The stretch keeps mid grey where it is. */
  lemma StretchFixesMidGrey(contrastFactor: real)
    ensures Stretch(128, contrastFactor) == 128
  {
    StretchLineOffset(128.0, contrastFactor);
    StoreKeepsBytes(128);
  }

  lemma ScaleMonotone(a: real, b: real, factor: real)
    requires a <= b && factor > 0.0
    ensures a * factor <= b * factor
  {
  }

  /** A positive factor keeps the sign of what it scales. */
  lemma ScaleKeepsSign(x: real, factor: real)
    requires factor > 0.0
    ensures x >= 0.0 ==> x * factor >= 0.0
    ensures x <= 0.0 ==> x * factor <= 0.0
  {
  }

  /** The stretch is nondecreasing in the channel value. */
  lemma StretchMonotone(c: int, d: int, contrastFactor: real)
    requires c <= d && contrastFactor > 0.0
    ensures Stretch(c, contrastFactor) <= Stretch(d, contrastFactor)
  {
    StretchLineOffset(c as real, contrastFactor);
    StretchLineOffset(d as real, contrastFactor);
    ScaleMonotone(c as real - 128.0, d as real - 128.0, contrastFactor);
    var x, y := StretchLine(c as real, contrastFactor), StretchLine(d as real, contrastFactor);
    assert x <= y;
    StoreMonotone(Max(0.0, Min(255.0, x)), Max(0.0, Min(255.0, y)));
  }

  /** The stretch pushes channels away from mid grey: up above it, down below it. */
  lemma StretchMovesAwayFromMidGrey(c: int, contrastFactor: real)
    requires 0 <= c <= 255 && contrastFactor > 0.0
    ensures c >= 128 ==> Stretch(c, contrastFactor) >= c
    ensures c <= 128 ==> Stretch(c, contrastFactor) <= c
  {
    StretchLineOffset(c as real, contrastFactor);
    ScaleKeepsSign(c as real - 128.0, contrastFactor);
    StoreKeepsBytes(c);
    if c >= 128 {
      StretchRaises(c, StretchLine(c as real, contrastFactor));
    }
    if c <= 128 {
      StretchLowers(c, StretchLine(c as real, contrastFactor));
    }
  }

  /** A line value at or above a byte clamps and stores at or above it. */
  lemma StretchRaises(c: int, y: real)
    requires 0 <= c <= 255 && c as real <= y && Store(c as real) == c
    ensures Store(Max(0.0, Min(255.0, y))) >= c
  {
    StoreMonotone(c as real, Max(0.0, Min(255.0, y)));
  }

  /** A line value at or below a byte clamps and stores at or below it. */
  lemma StretchLowers(c: int, y: real)
    requires 0 <= c <= 255 && y <= c as real && Store(c as real) == c
    ensures Store(Max(0.0, Min(255.0, y))) <= c
  {
    StoreMonotone(Max(0.0, Min(255.0, y)), c as real);
  }

  /** The brightness step never darkens a channel. */
  lemma BrightenNeverDarker(c: int, brightnessFactor: real)
    requires 0 <= c <= 255 && brightnessFactor > 0.0
    ensures c <= Brighten(c, brightnessFactor) <= 255
  {
    StoreKeepsBytes(c);
    StoreMonotone(c as real, Min(255.0, c as real + brightnessFactor * 255.0));
  }

  /** With only the brightness boost active, no colour channel decreases. */
  lemma BrightnessOnlyNeverDarker(c: int, brightnessFactor: real)
    requires 0 <= c <= 255
    ensures c <= Channel(c, brightnessFactor, 0.0)
  {
    if brightnessFactor > 0.0 {
      BrightenNeverDarker(c, brightnessFactor);
    }
  }

  /**
   * With both boosts active a channel can end darker than it started: a
   * dark channel is lifted and then pulled further down by the stretch.
   */
  lemma BothBoostsCanDarken()
    ensures BrightnessFactor(Some(0.39)) == 0.165 && ContrastFactor(Some(0.0)) == 0.6
    ensures Channel(10, 0.165, 0.6) == 6
  {
    assert Min(255.0, 10.0 + 0.165 * 255.0) == 52.075;
    assert 52.075.Floor == 52;
    assert Brighten(10, 0.165) == 52;
    assert 52.0 * 1.6 + 128.0 * (1.0 - 1.6) == 6.4;
    assert 6.4.Floor == 6;
  }

  /** The enhanced buffer: colour channels through `Channel`, alpha as it was. */
  function Enhanced(s: seq<int>, brightnessFactor: real, contrastFactor: real): (r: seq<int>)
    ensures |r| == |s|
  {
    seq(|s|, k requires 0 <= k < |s| =>
      if k % 4 == 3 then s[k] else Channel(s[k], brightnessFactor, contrastFactor))
  }

  /**
   * The pass leaves the length and every alpha entry alone and produces a
   * byte buffer from a byte buffer.
   */
  lemma EnhancedKeepsAlphaAndRange(s: seq<int>, brightnessFactor: real, contrastFactor: real)
    requires ImageStats.IsByteBuffer(s)
    ensures |Enhanced(s, brightnessFactor, contrastFactor)| == |s|
    ensures forall k :: 0 <= k < |s| && k % 4 == 3 ==> Enhanced(s, brightnessFactor, contrastFactor)[k] == s[k]
    ensures ImageStats.IsByteBuffer(Enhanced(s, brightnessFactor, contrastFactor))
  {
    var r := Enhanced(s, brightnessFactor, contrastFactor);
    forall k | 0 <= k < |s| ensures 0 <= r[k] <= 255 {
      if k % 4 != 3 {
        ChannelInByteRange(s[k], brightnessFactor, contrastFactor);
      }
    }
  }

  /** With only the brightness boost active, the pass darkens no entry. */
  lemma EnhancedBrightnessOnlyNeverDarker(s: seq<int>, brightnessFactor: real)
    requires ImageStats.IsByteBuffer(s)
    ensures forall k :: 0 <= k < |s| ==> s[k] <= Enhanced(s, brightnessFactor, 0.0)[k]
  {
    forall k | 0 <= k < |s| ensures s[k] <= Enhanced(s, brightnessFactor, 0.0)[k] {
      BrightnessOnlyNeverDarker(s[k], brightnessFactor);
    }
  }

  /**
   * The body of the pixel loop for the pixel at `i`: R, G and B are
   * brightened and stored, then re-read, stretched and stored; alpha and
   * every other pixel are left alone.
   */
  method EnhancePixel(data: array<int>, i: nat, brightnessFactor: real, contrastFactor: real)
    requires i + 4 <= data.Length
    modifies data
    ensures forall k :: 0 <= k < data.Length ==>
      data[k] == if i <= k < i + 3 then Channel(old(data[k]), brightnessFactor, contrastFactor) else old(data[k])
  {
    if brightnessFactor > 0.0 {
      data[i] := Brighten(data[i], brightnessFactor);
      data[i + 1] := Brighten(data[i + 1], brightnessFactor);
      data[i + 2] := Brighten(data[i + 2], brightnessFactor);
    }
    ghost var lifted := data[..];
    assert forall k :: i <= k < i + 3 ==>
      lifted[k] == if brightnessFactor > 0.0 then Brighten(old(data[k]), brightnessFactor) else old(data[k]);
    if contrastFactor > 0.0 {
      data[i] := Stretch(data[i], contrastFactor);
      data[i + 1] := Stretch(data[i + 1], contrastFactor);
      data[i + 2] := Stretch(data[i + 2], contrastFactor);
    }
    assert forall k :: i <= k < i + 3 ==>
      data[k] == if contrastFactor > 0.0 then Stretch(lifted[k], contrastFactor) else lifted[k];
  }

  /**
   * The `for (i = 0; i < data.length; i += 4)` loop: rewrite R, G and B of
   * each pixel in place, brightness first, then contrast.
   */
  method EnhancePixels(data: array<int>, brightnessFactor: real, contrastFactor: real)
    requires data.Length % 4 == 0
    modifies data
    ensures data[..] == Enhanced(old(data[..]), brightnessFactor, contrastFactor)
  {
    var i := 0;
    while i < data.Length
      invariant 0 <= i <= data.Length && i % 4 == 0
      invariant forall k :: 0 <= k < i ==>
        data[k] == if k % 4 == 3 then old(data[k]) else Channel(old(data[k]), brightnessFactor, contrastFactor)
      invariant forall k :: i <= k < data.Length ==> data[k] == old(data[k])
    {
      EnhancePixel(data, i, brightnessFactor, contrastFactor);
      i := i + 4;
    }
  }

  /**
   * The pixel work of `enhanceImage`: measure the brightness, and only when
   * a factor is active run the pass; otherwise the buffer is untouched.
   */
  method EnhanceImageData(data: array<int>, contrast: Option<real>)
    requires data.Length % 4 == 0
    modifies data
    ensures var b := ImageStats.MeanBrightness(old(data[..]));
      data[..] == if NeedsEnhancement(b, contrast)
                  then Enhanced(old(data[..]), BrightnessFactor(b), ContrastFactor(contrast))
                  else old(data[..])
  {
    var brightness := ImageStats.AnalyzeBrightness(data);
    if NeedsEnhancement(brightness, contrast) {
      var brightnessFactor := BrightnessFactor(brightness);
      var contrastFactor := ContrastFactor(contrast);
      EnhancePixels(data, brightnessFactor, contrastFactor);
    }
  }
}
