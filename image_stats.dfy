/**
 * The brightness half of `analyzeImage`: the mean luma of an RGBA buffer,
 * normalised to [0, 1].
 */
module ImageStats {
  import opened Wrappers

  /** Every entry of `s` is a byte value, as in a `Uint8ClampedArray`. */
  predicate IsByteBuffer(s: seq<int>) {
    forall k :: 0 <= k < |s| ==> 0 <= s[k] <= 255
  }

  /** Broadcast luma weights; alpha is ignored. */
  function Luma(r: int, g: int, b: int): real {
    0.299 * r as real + 0.587 * g as real + 0.114 * b as real
  }

  /** The luma of the pixel whose red channel is at index `i`. */
  function PixelLuma(s: seq<int>, i: nat): real
    requires i + 4 <= |s|
  {
    Luma(s[i], s[i + 1], s[i + 2])
  }

  /** The sum of the luma of every whole pixel of `s`, last pixel last. */
  function LumaSum(s: seq<int>): real
    requires |s| % 4 == 0
  {
    if |s| == 0 then 0.0 else LumaSum(s[..|s| - 4]) + PixelLuma(s, |s| - 4)
  }

  /**
   * `averageBrightness / 255`, where an empty buffer gives NaN (here `None`):
   * `0 / 0` in the source.
   */
  function MeanBrightness(s: seq<int>): Option<real>
    requires |s| % 4 == 0
  {
    if |s| == 0 then None else Some(LumaSum(s) / (255.0 * (|s| / 4) as real))
  }

  /** The weights sum to one, so a pixel's luma is a byte-range value. */
  lemma LumaInByteRange(r: int, g: int, b: int)
    requires 0 <= r <= 255 && 0 <= g <= 255 && 0 <= b <= 255
    ensures 0.0 <= Luma(r, g, b) <= 255.0
    ensures r == g == b ==> Luma(r, g, b) == r as real
  {
  }

  lemma {:induction false} LumaSumBounds(s: seq<int>)
    requires |s| % 4 == 0 && IsByteBuffer(s)
    ensures 0.0 <= LumaSum(s) <= 255.0 * (|s| / 4) as real
  {
    if |s| > 0 {
      var front := s[..|s| - 4];
      assert IsByteBuffer(front) by {
        forall k | 0 <= k < |front| ensures 0 <= front[k] <= 255 {
          assert front[k] == s[k];
        }
      }
      LumaSumBounds(front);
      LumaInByteRange(s[|s| - 4], s[|s| - 3], s[|s| - 2]);
      assert |front| / 4 == |s| / 4 - 1;
    }
  }

  /** For a non-empty byte buffer the normalised brightness lies in [0, 1]. */
  lemma BrightnessInUnitRange(s: seq<int>)
    requires |s| % 4 == 0 && |s| > 0 && IsByteBuffer(s)
    ensures MeanBrightness(s).Some?
    ensures 0.0 <= MeanBrightness(s).value <= 1.0
  {
    LumaSumBounds(s);
    var d := 255.0 * (|s| / 4) as real;
    assert d > 0.0;
    assert LumaSum(s) / d <= 1.0 by {
      assert LumaSum(s) <= d;
    }
  }

  /** An image of one uniform grey level has exactly that level as its brightness. */
  lemma {:induction false} UniformGreySum(s: seq<int>, v: int)
    requires |s| % 4 == 0
    requires forall k :: 0 <= k < |s| && k % 4 != 3 ==> s[k] == v
    ensures LumaSum(s) == (|s| / 4) as real * v as real
  {
    if |s| > 0 {
      var front := s[..|s| - 4];
      assert forall k :: 0 <= k < |front| && k % 4 != 3 ==> front[k] == v by {
        forall k | 0 <= k < |front| && k % 4 != 3 ensures front[k] == v {
          assert front[k] == s[k];
        }
      }
      UniformGreySum(front, v);
      assert (|s| - 4) % 4 != 3 && (|s| - 3) % 4 != 3 && (|s| - 2) % 4 != 3;
      assert PixelLuma(s, |s| - 4) == v as real;
      assert |front| / 4 == |s| / 4 - 1;
    }
  }

  /** The brightness of a uniform grey image is its grey level over 255. */
  lemma UniformGreyBrightness(s: seq<int>, v: int)
    requires |s| % 4 == 0 && |s| > 0
    requires forall k :: 0 <= k < |s| && k % 4 != 3 ==> s[k] == v
    ensures MeanBrightness(s) == Some(v as real / 255.0)
  {
    UniformGreySum(s, v);
    var n := (|s| / 4) as real;
    var g := v as real;
    assert n > 0.0;
    assert LumaSum(s) == n * g;
    calc {
      LumaSum(s) / (255.0 * n);
      (n * g) / (255.0 * n);
      { assert (n * g) / (255.0 * n) * (255.0 * n) == n * g;
        assert g / 255.0 * (255.0 * n) == n * g; }
      g / 255.0;
    }
  }

  /** Summing one more pixel extends the luma sum by that pixel's luma. */
  lemma LumaSumExtend(s: seq<int>, i: nat)
    requires i % 4 == 0 && i + 4 <= |s|
    ensures LumaSum(s[..i + 4]) == LumaSum(s[..i]) + Luma(s[i], s[i + 1], s[i + 2])
  {
    assert s[..i + 4][..i] == s[..i];
  }

  /** The prefix that reaches the end is the whole buffer. */
  lemma WholeBuffer(s: seq<int>, i: nat)
    requires i == |s|
    ensures s[..i] == s
  {
  }

  /**
   * The mean brightness from the luma sum: the sum over the pixel count,
   * over 255.
   */
  lemma MeanFromSum(s: seq<int>, sum: real)
    requires |s| % 4 == 0 && sum == LumaSum(s)
    ensures |s| == 0 ==> MeanBrightness(s).None?
    ensures |s| > 0 ==> MeanBrightness(s) == Some(sum / (|s| / 4) as real / 255.0)
  {
    if |s| > 0 {
      NormaliseAverage(sum, |s| / 4);
    }
  }

  /** Dividing by the pixel count and then by 255 divides by their product. */
  lemma NormaliseAverage(sum: real, pixelCount: nat)
    requires pixelCount > 0
    ensures sum / pixelCount as real / 255.0 == sum / (255.0 * pixelCount as real)
  {
  }

  /**
   * `analyzeImage`'s first loop: walk the buffer one pixel (four entries)
   * at a time, summing luma, then divide by the pixel count and by 255.
   */
  method AnalyzeBrightness(data: array<int>) returns (brightness: Option<real>)
    requires data.Length % 4 == 0
    ensures brightness == MeanBrightness(data[..])
  {
    var sum := 0.0;
    var i := 0;
    while i < data.Length
      invariant 0 <= i <= data.Length && i % 4 == 0
      invariant sum == LumaSum(data[..i])
    {
      LumaSumExtend(data[..], i);
      sum := sum + Luma(data[i], data[i + 1], data[i + 2]);
      i := i + 4;
    }
    WholeBuffer(data[..], i);
    MeanFromSum(data[..], sum);
    var pixelCount := data.Length / 4;
    if pixelCount == 0 {
      brightness := None;
    } else {
      var averageBrightness := sum / pixelCount as real;
      brightness := Some(averageBrightness / 255.0);
    }
  }
}
