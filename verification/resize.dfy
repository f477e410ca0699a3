/** The width/height computation of `readImageAsBase64` (script.js): before
    JPEG re-encoding the image is scaled so that its longer side is at most
    1200, keeping its aspect ratio and never enlarging it. Arithmetic is exact
    (`real`), not IEEE double. */
module Resize {

  /** Every image leaves the browser re-encoded as JPEG. */
  const OutputMimeType: string := "image/jpeg"

  const MaxWidth: real := 1200.0
  const MaxHeight: real := 1200.0

  datatype Dimensions = Dimensions(width: real, height: real)

  /** The two-branch computation as written: a wider-than-tall image is bounded
      by its width, any other (including a square) by its height. */
  function FitWithin(w: nat, h: nat): (d: Dimensions)
    ensures d.width <= MaxWidth && d.height <= MaxHeight
    ensures d.width <= w as real && d.height <= h as real
    ensures d.width * (h as real) == d.height * (w as real)
    ensures w as real <= MaxWidth && h as real <= MaxHeight ==> d == Dimensions(w as real, h as real)
    ensures w > h && w as real > MaxWidth ==> d.width == MaxWidth
    ensures w <= h && h as real > MaxHeight ==> d.height == MaxHeight
  {
    var width := w as real;
    var height := h as real;
    if width > height then
      if width > MaxWidth then
        var nh := height * (MaxWidth / width);
        ScaledBelow(height, width, MaxWidth);
        Dimensions(MaxWidth, nh)
      else Dimensions(width, height)
    else
      if height > MaxHeight then
        var nw := width * (MaxHeight / height);
        ScaledBelow(width, height, MaxHeight);
        Dimensions(nw, MaxHeight)
      else Dimensions(width, height)
  }

  /** Scaling the shorter side by `limit / longer` keeps it within the limit and
      the ratio between the sides. */
  lemma ScaledBelow(shorter: real, longer: real, limit: real)
    requires 0.0 <= shorter <= longer && 0.0 < limit < longer
    ensures 0.0 <= shorter * (limit / longer) <= limit
    ensures shorter * (limit / longer) <= shorter
    ensures shorter * (limit / longer) * longer == limit * shorter
  {
    var f := limit / longer;
    assert f * longer == limit;
    if f >= 1.0 {
      assert f * longer >= 1.0 * longer;
    }
    assert shorter * f <= longer * f;
  }

  /** Reference definition: one uniform factor `min(1, 1200 / max(w, h))`. */
  function ScaleFactor(w: nat, h: nat): (s: real)
    ensures 0.0 < s <= 1.0
  {
    var longer := if w > h then w as real else h as real;
    if longer <= MaxWidth then 1.0 else MaxWidth / longer
  }

  /** The two-branch computation is the uniform scaling by `ScaleFactor`. */
  lemma FitWithinIsUniformScale(w: nat, h: nat)
    ensures FitWithin(w, h) == Dimensions(w as real * ScaleFactor(w, h), h as real * ScaleFactor(w, h))
  {
    var s := ScaleFactor(w, h);
    if w > h && w as real > MaxWidth {
      assert w as real * s == MaxWidth;
    } else if w <= h && h as real > MaxHeight {
      assert h as real * s == MaxHeight;
    }
  }
}
