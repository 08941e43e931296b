/** Opening a shared image and shrinking it before upload: `processImageUri` and
    `scaleBitmap`. Only the dimensions of a bitmap are modelled, not its pixels. */
module Scaling {
  import opened Common
  import opened IntentEx

  /** The default bounds of `scaleBitmap`. */
  const MAX_WIDTH := 1024
  const MAX_HEIGHT := 1024

  type Positive = n: int | 0 < n witness 1

  datatype Size = Size(width: int, height: int)

  predicate Fits(width: int, height: int, maxWidth: int, maxHeight: int) {
    width <= maxWidth && height <= maxHeight
  }

  /** `minOf(maxWidth.toFloat() / width, maxHeight.toFloat() / height)`, in exact arithmetic. */
  function Ratio(width: Positive, height: Positive, maxWidth: int, maxHeight: int): real {
    var byWidth := maxWidth as real / width as real;
    var byHeight := maxHeight as real / height as real;
    if byWidth <= byHeight then byWidth else byHeight
  }

  /** The size `scaleBitmap` gives: unchanged when it fits, otherwise both sides multiplied
      by the ratio and truncated (`toInt()`). */
  function ScaledSize(width: Positive, height: Positive, maxWidth: int, maxHeight: int): (r: Size)
    ensures r.width <= width && r.height <= height
  {
    if Fits(width, height, maxWidth, maxHeight) then Size(width, height)
    else
      var ratio := Ratio(width, height, maxWidth, maxHeight);
      assert ratio < 1.0 by {
        if width > maxWidth {
          QuotientBelowOne(maxWidth, width);
        } else {
          QuotientBelowOne(maxHeight, height);
        }
      }
      ShrinkBelow(width, ratio);
      ShrinkBelow(height, ratio);
      Size((width as real * ratio).Floor, (height as real * ratio).Floor)
  }

  /** A quotient whose numerator is below its denominator is below one. */
  lemma QuotientBelowOne(a: int, b: Positive)
    requires a < b
    ensures a as real / b as real < 1.0
  {
    assert a as real / b as real * b as real == a as real;
  }

  /** Multiplying a side by a factor below one shrinks it. */
  lemma ShrinkBelow(side: Positive, factor: real)
    requires factor < 1.0
    ensures (side as real * factor).Floor < side
  {
    var x := side as real;
    assert x * (1.0 - factor) > 0.0;
    assert x * factor == x - x * (1.0 - factor);
    assert (x * factor).Floor as real <= x * factor;
  }

  /** Truncating an exact quotient of integers is integer division. */
  lemma FloorOfQuotient(a: int, b: Positive)
    ensures (a as real / b as real).Floor == a / b
  {
    var q, r := a / b, a % b;
    assert a as real == q as real * b as real + r as real;
    assert a as real / b as real == q as real + r as real / b as real;
    assert 0.0 <= r as real / b as real < 1.0;
  }

  /** A side multiplied by `max / other` and truncated. */
  lemma ScaledSide(side: Positive, other: Positive, max: int)
    ensures (side as real * (max as real / other as real)).Floor == side * max / other
    ensures side == other ==> side as real * (max as real / other as real) == max as real
  {
    assert side as real * (max as real / other as real) == (side * max) as real / other as real;
    FloorOfQuotient(side * max, other);
  }

  /** Comparing two quotients is comparing the cross products. */
  lemma CompareQuotients(a: int, b: Positive, c: int, d: Positive)
    ensures a as real / b as real <= c as real / d as real <==> a * d <= c * b
  {
    var x, y := a as real / b as real, c as real / d as real;
    var k := (b * d) as real;
    assert x * k == (a * d) as real;
    assert y * k == (c * b) as real;
    assert x <= y <==> x * k <= y * k;
  }

  /** An integer reference for the scaled size: the side whose bound is tighter becomes that
      bound, and the other side is scaled in proportion, rounded down. */
  lemma ScaledSizeByDivision(width: Positive, height: Positive, maxWidth: int, maxHeight: int)
    requires !Fits(width, height, maxWidth, maxHeight)
    ensures maxWidth * height <= maxHeight * width ==>
              ScaledSize(width, height, maxWidth, maxHeight) == Size(maxWidth, height * maxWidth / width)
    ensures maxWidth * height > maxHeight * width ==>
              ScaledSize(width, height, maxWidth, maxHeight) == Size(width * maxHeight / height, maxHeight)
  {
    CompareQuotients(maxWidth, width, maxHeight, height);
    if maxWidth * height <= maxHeight * width {
      ScaledByWidth(width, height, maxWidth, maxHeight);
    } else {
      ScaledByHeight(width, height, maxWidth, maxHeight);
    }
  }

  lemma ScaledByWidth(width: Positive, height: Positive, maxWidth: int, maxHeight: int)
    requires !Fits(width, height, maxWidth, maxHeight)
    requires Ratio(width, height, maxWidth, maxHeight) == maxWidth as real / width as real
    ensures ScaledSize(width, height, maxWidth, maxHeight) == Size(maxWidth, height * maxWidth / width)
  {
    var ratio := maxWidth as real / width as real;
    assert ScaledSize(width, height, maxWidth, maxHeight) ==
           Size((width as real * ratio).Floor, (height as real * ratio).Floor);
    ScaledSide(width, width, maxWidth);
    ScaledSide(height, width, maxWidth);
  }

  lemma ScaledByHeight(width: Positive, height: Positive, maxWidth: int, maxHeight: int)
    requires !Fits(width, height, maxWidth, maxHeight)
    requires Ratio(width, height, maxWidth, maxHeight) == maxHeight as real / height as real
    ensures ScaledSize(width, height, maxWidth, maxHeight) == Size(width * maxHeight / height, maxHeight)
  {
    var ratio := maxHeight as real / height as real;
    assert ScaledSize(width, height, maxWidth, maxHeight) ==
           Size((width as real * ratio).Floor, (height as real * ratio).Floor);
    ScaledSide(width, height, maxHeight);
    ScaledSide(height, height, maxHeight);
  }

  /** Integer division rounds down by less than the divisor. */
  lemma DivBounds(a: int, b: Positive)
    ensures (a / b) * b <= a < (a / b) * b + b
  {
  }

  lemma CancelFactor(x: int, y: int, k: Positive)
    requires x * k <= y * k
    ensures x <= y
  {
  }

  /** The same side-by-side statement in the width-bound case. */
  lemma BoundsWhenWidthLimits(width: Positive, height: Positive, maxWidth: Positive, maxHeight: Positive)
    requires !Fits(width, height, maxWidth, maxHeight)
    requires maxWidth * height <= maxHeight * width
    ensures var h := height * maxWidth / width;
            && maxWidth < width && 0 <= h <= maxHeight && h <= height
            && 0 <= maxWidth * height - h * width < width
  {
    var h := height * maxWidth / width;
    DivBounds(height * maxWidth, width);
    assert width > maxWidth by {
      if width <= maxWidth {
      }
    }
    assert h * width <= height * width;
    CancelFactor(h, height, width);
    assert h * width <= maxHeight * width;
    CancelFactor(h, maxHeight, width);
  }

  lemma BoundsWhenHeightLimits(width: Positive, height: Positive, maxWidth: Positive, maxHeight: Positive)
    requires !Fits(width, height, maxWidth, maxHeight)
    requires maxWidth * height > maxHeight * width
    ensures var w := width * maxHeight / height;
            && maxHeight < height && 0 <= w <= maxWidth && w <= width
            && 0 <= maxHeight * width - w * height < height
  {
    var w := width * maxHeight / height;
    DivBounds(width * maxHeight, height);
    assert height > maxHeight by {
      if height <= maxHeight {
      }
    }
    assert w * height <= width * height;
    CancelFactor(w, width, height);
    assert w * height <= maxWidth * height;
    CancelFactor(w, maxWidth, height);
  }

  /** An image within the bounds is left as it is; a larger one is brought within both
      bounds, no side grows, one side meets its bound exactly, and the cross-multiplied
      aspect ratio moves by less than one pixel of a side. */
  lemma ScaledSizeBounds(width: Positive, height: Positive, maxWidth: Positive, maxHeight: Positive)
    ensures Fits(width, height, maxWidth, maxHeight) ==>
              ScaledSize(width, height, maxWidth, maxHeight) == Size(width, height)
    ensures !Fits(width, height, maxWidth, maxHeight) ==>
              var s := ScaledSize(width, height, maxWidth, maxHeight);
              && 0 <= s.width <= maxWidth && 0 <= s.height <= maxHeight
              && s.width <= width && s.height <= height
              && (s.width == maxWidth || s.height == maxHeight)
              && -(width + height) < s.width * height - s.height * width < width + height
  {
    if !Fits(width, height, maxWidth, maxHeight) {
      ScaledSizeByDivision(width, height, maxWidth, maxHeight);
      if maxWidth * height <= maxHeight * width {
        BoundsWhenWidthLimits(width, height, maxWidth, maxHeight);
      } else {
        BoundsWhenHeightLimits(width, height, maxWidth, maxHeight);
      }
    }
  }

  /** A very thin image loses its short side entirely: 3000 x 1 scales to 1024 x 0. */
  lemma ThinImageTruncatesToZero()
    ensures ScaledSize(3000, 1, MAX_WIDTH, MAX_HEIGHT) == Size(1024, 0)
  {
    ScaledSizeByDivision(3000, 1, MAX_WIDTH, MAX_HEIGHT);
  }

  /** A decoded bitmap: its size is fixed; `recycle()` releases it in place. */
  class Bitmap {
    const width: Positive
    const height: Positive
    var recycled: bool

    constructor (width: Positive, height: Positive)
      ensures this.width == width && this.height == height && !recycled
    {
      this.width := width;
      this.height := height;
      recycled := false;
    }

    /** `recycle()`. */
    method Recycle()
      modifies this
      ensures recycled
    {
      recycled := true;
    }
  }

  /** `Bitmap.scaleBitmap(maxWidth, maxHeight)`: the receiver itself when it fits; otherwise
      a new bitmap of the scaled size, after which the receiver is recycled. `None` stands
      for the IllegalArgumentException `scale` throws when a side truncates to 0 (nothing
      is recycled then). */
  method ScaleBitmap(b: Bitmap, maxWidth: int := MAX_WIDTH, maxHeight: int := MAX_HEIGHT)
    returns (r: Option<Bitmap>)
    modifies b
    ensures Fits(b.width, b.height, maxWidth, maxHeight) ==> r == Some(b) && b.recycled == old(b.recycled)
    ensures !Fits(b.width, b.height, maxWidth, maxHeight) ==>
              var s := ScaledSize(b.width, b.height, maxWidth, maxHeight);
              if s.width > 0 && s.height > 0 then
                r.Some? && fresh(r.value) && r.value.width == s.width && r.value.height == s.height &&
                !r.value.recycled && b.recycled
              else
                r.None? && b.recycled == old(b.recycled)
  {
    if Fits(b.width, b.height, maxWidth, maxHeight) {
      return Some(b);
    }
    var ratio := Ratio(b.width, b.height, maxWidth, maxHeight);
    var newWidth := (b.width as real * ratio).Floor;
    var newHeight := (b.height as real * ratio).Floor;
    if newWidth <= 0 || newHeight <= 0 {
      return None;
    }
    var scaled := new Bitmap(newWidth, newHeight);
    b.Recycle();
    r := Some(scaled);
  }

  /** What `contentResolver.openInputStream(uri)` and `BitmapFactory.decodeStream` make of
      a URI: no stream (null), an exception while opening, a stream that does not decode
      (null), or a bitmap of the given size. */
  datatype ImageSource =
    | NoStream
    | OpenFails(message: Option<string>)
    | Undecodable
    | Decodes(width: Positive, height: Positive)

  /** The size of the bitmap `processImageUri` hands on, or `None` for its null. */
  function ProcessedSize(source: ImageSource): Option<Size> {
    match source
    case Decodes(width, height) =>
      var s := ScaledSize(width, height, MAX_WIDTH, MAX_HEIGHT);
      if s.width > 0 && s.height > 0 then Some(s) else None
    case _ => None
  }

  /** A processed image exists exactly when the URI decodes and neither scaled side
      truncates to 0; it is at most 1024 x 1024 and no larger than the decoded image, and
      an image already within bounds is passed on at its own size. */
  lemma ProcessedSizeSpec(source: ImageSource)
    ensures ProcessedSize(source).Some? <==>
              source.Decodes? &&
              ScaledSize(source.width, source.height, MAX_WIDTH, MAX_HEIGHT).width > 0 &&
              ScaledSize(source.width, source.height, MAX_WIDTH, MAX_HEIGHT).height > 0
    ensures ProcessedSize(source).Some? ==>
              var s := ProcessedSize(source).value;
              && 0 < s.width <= MAX_WIDTH && 0 < s.height <= MAX_HEIGHT
              && s.width <= source.width && s.height <= source.height
    ensures source.Decodes? && Fits(source.width, source.height, MAX_WIDTH, MAX_HEIGHT) ==>
              ProcessedSize(source) == Some(Size(source.width, source.height))
  {
    if source.Decodes? {
      ScaledSizeBounds(source.width, source.height, MAX_WIDTH, MAX_HEIGHT);
    }
  }

  /** `Activity.processImageUri(uri)`: open, decode and scale; every failure (no stream, an
      exception, an undecodable stream, a side scaled to 0) becomes null. */
  method ProcessImageUri(content: Uri -> ImageSource, uri: Uri) returns (r: Option<Bitmap>)
    ensures r.None? <==> ProcessedSize(content(uri)).None?
    ensures r.Some? ==> fresh(r.value) && !r.value.recycled &&
                        Size(r.value.width, r.value.height) == ProcessedSize(content(uri)).value
  {
    var source := content(uri);
    match source
    case Decodes(width, height) =>
      var decoded := new Bitmap(width, height);
      r := ScaleBitmap(decoded);
    case _ =>
      r := None;
  }
}
