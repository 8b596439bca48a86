/**
 * Geometry of `cropToVinRegion`: the band of the image where the VIN is
 * expected, computed from the decoded image's pixel dimensions.
 */
module CropGeometry {

  /** A source rectangle for `drawImage`, in pixels. */
  datatype Region = Region(x: real, y: real, width: real, height: real)

  /**
   * The crop for an image of `w` by `h` pixels: 90% of the width, centred,
   * and 35% of the height starting 55% of the way down.
   */
  function VinRegion(w: nat, h: nat): (r: Region)
    ensures r.width == 0.9 * w as real && r.height == 0.35 * h as real
    ensures 0.0 <= r.x && r.x + r.width <= w as real
    ensures 0.0 <= r.y && r.y + r.height <= h as real
    ensures r.x + r.width / 2.0 == w as real / 2.0
    ensures r.x == 0.05 * w as real && r.y == 0.55 * h as real
    ensures r.y + r.height == 0.9 * h as real
  {
    var cropWidth := w as real * 0.9;
    var cropHeight := h as real * 0.35;
    var cropX := (w as real - cropWidth) / 2.0;
    var cropY := h as real * 0.55;
    Region(cropX, cropY, cropWidth, cropHeight)
  }

  /**
   * Assigning a fractional size to `canvas.width` or `canvas.height` keeps
   * its integer part.
   */
  function CanvasExtent(size: real): (n: nat)
    requires size >= 0.0
    ensures n as real <= size < n as real + 1.0
  {
    size.Floor
  }

  /** The size of the canvas the cropped band is drawn on. */
  function CropCanvas(w: nat, h: nat): (extent: (nat, nat))
    ensures extent.0 as real <= 0.9 * w as real && extent.1 as real <= 0.35 * h as real
    ensures extent.0 <= w && extent.1 <= h
  {
    var r := VinRegion(w, h);
    (CanvasExtent(r.width), CanvasExtent(r.height))
  }

  /**
   * A one-pixel-wide or two-pixel-high image gives an empty canvas; the
   * browser then produces no blob and the crop fails.
   */
  lemma DegenerateImageGivesEmptyCanvas(w: nat, h: nat)
    requires w <= 1 || h <= 2
    ensures CropCanvas(w, h).0 == 0 || CropCanvas(w, h).1 == 0
  {
  }

  /** Images of at least 2 by 3 pixels give a non-empty canvas. */
  lemma LargeEnoughImageGivesCanvas(w: nat, h: nat)
    requires w >= 2 && h >= 3
    ensures CropCanvas(w, h).0 >= 1 && CropCanvas(w, h).1 >= 1
  {
  }
}
