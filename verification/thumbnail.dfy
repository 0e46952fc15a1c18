/**
 * The thumbnail sizing engine: the two `Create` overloads of the `Thumbnail` class and the
 * two resamplers they end in.
 *
 * All sizing arithmetic that the source does in `double` is done here on exact rationals
 * (see modules Rounding and Zoom); that is an idealisation of the floating-point code.
 * Limits are any C# `int`: the engine itself does not check them, so a limit of zero or
 * below flows into the arithmetic as it does in the source.
 */
module Thumbnail {
  import opened Wrappers
  import opened Rounding
  import Zoom

  /** The axis a single-axis thumbnail is limited along. */
  datatype Dimension = Height | Width

  /** The resampler used: the plain bitmap constructor or the bicubic pipeline. */
  datatype Quality = Normal | High

  /** A `System.Drawing.Size`; a computed one may be zero or negative, which the resampler rejects. */
  datatype Size = Size(width: Int32, height: Int32)

  /** A side length of an existing bitmap. */
  type Extent = x: int | 1 <= x <= INT32_MAX witness 1

  /** The size of an existing image: both sides positive C# ints. */
  type SourceSize = s: Size | 1 <= s.width <= INT32_MAX && 1 <= s.height <= INT32_MAX
    witness Size(1, 1)

  /** A raster image; P is the pixel content, which this model never inspects. */
  datatype Image<P> = Image(width: Extent, height: Extent, pixels: P)
  {
    function Dims(): SourceSize
    {
      Size(width, height)
    }
  }

  /** A limit along one axis, or a maximum in both. */
  datatype Constraint =
    | SingleAxis(axis: Dimension, limit: Int32)
    | Both(maxWidth: Int32, maxHeight: Int32)

  /**
   * The exceptions a Create call can end in: the engine's own "would not get smaller",
   * Convert.ToInt32's OverflowException, and the ArgumentException the bitmap
   * constructors raise for a side that is not positive.
   */
  datatype Error = NotSmaller | Overflow | InvalidSize

  /** The two resampling filters, opaque: each yields the pixels of the requested size. */
  datatype Resamplers<!P> = Resamplers(
    bulk: (Image<P>, Extent, Extent) -> P,
    bicubic: (Image<P>, Extent, Extent) -> P)

  function Along(s: Size, d: Dimension): int
  {
    match d
    case Width => s.width
    case Height => s.height
  }

  function Other(d: Dimension): Dimension
  {
    match d
    case Width => Height
    case Height => Width
  }

  /**
   * The size of a thumbnail limited along `axis` (first `Create` overload).
   *
   * With the ratio kept, the source computes `other / (extent / limit)` in double and
   * rounds with Convert.ToInt32; here that is `other * limit / extent` rounded half to even.
   * At limit 0 the double zoom factor is +Infinity and the quotient 0, as the fraction gives.
   */
  function SingleAxisSize(src: SourceSize, axis: Dimension, limit: Int32, keepRatio: bool)
    : (r: Result<Size, Error>)
    ensures r == Err(NotSmaller) <==> Along(src, axis) <= limit
    ensures r.Err? ==> r.error == NotSmaller || (keepRatio && limit < 0 && r.error == Overflow)
    ensures r == Err(Overflow) <==>
      keepRatio && Along(src, axis) > limit
      && !RoundsIntoInt32(Along(src, Other(axis)) * limit, Along(src, axis))
    ensures r.Ok? ==> Along(r.value, axis) == limit
    ensures r.Ok? && !keepRatio ==> Along(r.value, Other(axis)) == Along(src, Other(axis))
    ensures r.Ok? && keepRatio ==>
      NearestHalfEven(Along(r.value, Other(axis)), Along(src, Other(axis)) * limit, Along(src, axis))
  {
    if src.height <= limit && axis == Height then Err(NotSmaller)
    else if src.width <= limit && axis == Width then Err(NotSmaller)
    else if !keepRatio then
      match axis
      case Height => Ok(Size(src.width, limit))
      case Width => Ok(Size(limit, src.height))
    else
      match axis
      case Height =>
        (match ConvertToInt32(src.width * limit, src.height)
         case Some(w) => Ok(Size(w, limit))
         case None => NoShrinkOverflow(src.width, src.height, limit); Err(Overflow))
      case Width =>
        (match ConvertToInt32(src.height * limit, src.width)
         case Some(h) => Ok(Size(limit, h))
         case None => NoShrinkOverflow(src.height, src.width, limit); Err(Overflow))
  }

  /**
   * The size of a thumbnail bounded in both axes (second `Create` overload). With the
   * ratio kept it delegates to the single-axis case: to the one axis that is too large,
   * or, when both are, to the axis of strictly larger zoom factor, height on a tie.
   */
  function BothAxesSize(src: SourceSize, maxWidth: Int32, maxHeight: Int32, keepRatio: bool)
    : (r: Result<Size, Error>)
    ensures r == Err(NotSmaller) <==> src.height <= maxHeight && src.width <= maxWidth
    ensures r.Err? ==> r.error == NotSmaller || (keepRatio && r.error == Overflow && (maxWidth < 0 || maxHeight < 0))
    ensures r.Ok? && !keepRatio ==> r.value == Size(Min(src.width, maxWidth), Min(src.height, maxHeight))
    ensures r.Ok? && keepRatio ==>
      (r.value.width == maxWidth && src.width > maxWidth) || (r.value.height == maxHeight && src.height > maxHeight)
  {
    if src.height <= maxHeight && src.width <= maxWidth then Err(NotSmaller)
    else if !keepRatio then
      if src.width > maxWidth && src.height <= maxHeight then Ok(Size(maxWidth, src.height))
      else if src.width <= maxWidth && src.height > maxHeight then Ok(Size(src.width, maxHeight))
      else Ok(Size(maxWidth, maxHeight))
    else
      if src.width > maxWidth && src.height <= maxHeight then SingleAxisSize(src, Width, maxWidth, true)
      else if src.width <= maxWidth && src.height > maxHeight then SingleAxisSize(src, Height, maxHeight, true)
      else if Zoom.Greater(Zoom.FactorOf(src.width, maxWidth), Zoom.FactorOf(src.height, maxHeight)) then
        SingleAxisSize(src, Width, maxWidth, true)
      else
        SingleAxisSize(src, Height, maxHeight, true)
  }

  function Min(a: int, b: int): int
  {
    if a <= b then a else b
  }

  /** True when the constraint asks for a smaller image than `src`. */
  predicate Shrinks(src: Size, c: Constraint)
  {
    match c
    case SingleAxis(axis, limit) => Along(src, axis) > limit
    case Both(maxWidth, maxHeight) => src.width > maxWidth || src.height > maxHeight
  }

  /** Every limit of the constraint is positive, as the form's numeric fields ensure. */
  predicate PositiveLimits(c: Constraint)
  {
    match c
    case SingleAxis(_, limit) => limit > 0
    case Both(maxWidth, maxHeight) => maxWidth > 0 && maxHeight > 0
  }

  /** s respects every bound of c and is no larger than src in either side. */
  predicate FitsWithin(s: Size, src: Size, c: Constraint)
  {
    && 0 <= s.width <= src.width
    && 0 <= s.height <= src.height
    && match c
       case SingleAxis(axis, limit) => Along(s, axis) <= limit
       case Both(maxWidth, maxHeight) => s.width <= maxWidth && s.height <= maxHeight
  }

  /** The target size for any constraint: the dispatch the two overloads perform. */
  function ComputeSize(src: SourceSize, c: Constraint, keepRatio: bool): (r: Result<Size, Error>)
    ensures r == Err(NotSmaller) <==> !Shrinks(src, c)
    ensures PositiveLimits(c) && Shrinks(src, c) ==> r.Ok? && FitsWithin(r.value, src, c)
  {
    match c
    case SingleAxis(axis, limit) =>
      SingleAxisFits(src, axis, limit, keepRatio);
      SingleAxisSize(src, axis, limit, keepRatio)
    case Both(maxWidth, maxHeight) =>
      BothAxesFit(src, maxWidth, maxHeight, keepRatio);
      BothAxesSize(src, maxWidth, maxHeight, keepRatio)
  }

  /**
   * `ResizeImage` / `ResizeImageHQ` chosen by quality. Only the size is modelled: the
   * result has exactly the requested sides, its pixels are what the chosen filter makes of
   * the source, and a side that is not positive makes the bitmap constructor throw.
   */
  function Resample<P>(img: Image<P>, s: Size, quality: Quality, filters: Resamplers<P>)
    : (r: Result<Image<P>, Error>)
    ensures r.Ok? <==> s.width > 0 && s.height > 0
    ensures r.Err? ==> r.error == InvalidSize
    ensures r.Ok? ==> r.value.width == s.width && r.value.height == s.height
    ensures r.Ok? && quality == Normal ==> r.value.pixels == filters.bulk(img, s.width, s.height)
    ensures r.Ok? && quality == High ==> r.value.pixels == filters.bicubic(img, s.width, s.height)
  {
    if s.width <= 0 || s.height <= 0 then Err(InvalidSize)
    else
      match quality
      case Normal => Ok(Image(s.width, s.height, filters.bulk(img, s.width, s.height)))
      case High => Ok(Image(s.width, s.height, filters.bicubic(img, s.width, s.height)))
  }

  /** Either `Create` overload: size the thumbnail, then resample the image to that size. */
  function Create<P>(img: Image<P>, c: Constraint, keepRatio: bool, quality: Quality, filters: Resamplers<P>)
    : (r: Result<Image<P>, Error>)
    ensures r == Err(NotSmaller) <==> !Shrinks(img.Dims(), c)
    ensures r.Ok? ==> ComputeSize(img.Dims(), c, keepRatio) == Ok(Size(r.value.width, r.value.height))
    ensures ComputeSize(img.Dims(), c, keepRatio).Err? ==> r == Err(ComputeSize(img.Dims(), c, keepRatio).error)
    ensures var s := ComputeSize(img.Dims(), c, keepRatio); s.Ok? && s.value.width > 0 && s.value.height > 0 ==> r.Ok?
    ensures r.Ok? && quality == Normal ==> r.value.pixels == filters.bulk(img, r.value.width, r.value.height)
    ensures r.Ok? && quality == High ==> r.value.pixels == filters.bicubic(img, r.value.width, r.value.height)
    ensures r == Err(InvalidSize) <==>
      (ComputeSize(img.Dims(), c, keepRatio).Ok? &&
       (ComputeSize(img.Dims(), c, keepRatio).value.width <= 0 || ComputeSize(img.Dims(), c, keepRatio).value.height <= 0))
  {
    match ComputeSize(img.Dims(), c, keepRatio)
    case Err(e) => Err(e)
    case Ok(s) => Resample(img, s, quality, filters)
  }

  /** With a positive limit below the source extent, the single-axis size fits. */
  lemma SingleAxisFits(src: SourceSize, axis: Dimension, limit: Int32, keepRatio: bool)
    ensures 0 < limit < Along(src, axis) ==>
      && SingleAxisSize(src, axis, limit, keepRatio).Ok?
      && FitsWithin(SingleAxisSize(src, axis, limit, keepRatio).value, src, SingleAxis(axis, limit))
      && Along(SingleAxisSize(src, axis, limit, keepRatio).value, axis) == limit
  {
    var r := SingleAxisSize(src, axis, limit, keepRatio);
    if keepRatio && 0 < limit < Along(src, axis) {
      var other, extent := Along(src, Other(axis)), Along(src, axis);
      ScaledWithin(other, extent, limit);
      RoundHalfEvenIsNearest(Along(r.value, Other(axis)), other * limit, extent);
    }
  }

  /** With positive maxima, a dual-axis size fits within them and within the source. */
  lemma BothAxesFit(src: SourceSize, maxWidth: Int32, maxHeight: Int32, keepRatio: bool)
    ensures 0 < maxWidth && 0 < maxHeight && (src.width > maxWidth || src.height > maxHeight) ==>
      && BothAxesSize(src, maxWidth, maxHeight, keepRatio).Ok?
      && FitsWithin(BothAxesSize(src, maxWidth, maxHeight, keepRatio).value, src, Both(maxWidth, maxHeight))
  {
    var w, h := src.width, src.height;
    if keepRatio && 0 < maxWidth && 0 < maxHeight && (w > maxWidth || h > maxHeight) {
      if w > maxWidth && h <= maxHeight {
        SingleAxisFits(src, Width, maxWidth, true);
      } else if w <= maxWidth && h > maxHeight {
        SingleAxisFits(src, Height, maxHeight, true);
      } else {
        Zoom.GreaterOfPositiveLimits(w, maxWidth, h, maxHeight);
        if w * maxHeight > h * maxWidth {
          WidthBindsFits(src, maxWidth, maxHeight);
        } else {
          HeightBindsFits(src, maxWidth, maxHeight);
        }
      }
    }
  }

  /** When width has the larger zoom factor, the height it yields stays below maxHeight. */
  lemma WidthBindsFits(src: SourceSize, maxWidth: Int32, maxHeight: Int32)
    requires 0 < maxWidth < src.width && 0 < maxHeight < src.height
    requires src.width * maxHeight > src.height * maxWidth
    ensures SingleAxisSize(src, Width, maxWidth, true).Ok?
    ensures FitsWithin(SingleAxisSize(src, Width, maxWidth, true).value, src, Both(maxWidth, maxHeight))
  {
    var w, h := src.width, src.height;
    SingleAxisFits(src, Width, maxWidth, true);
    assert h * maxWidth <= maxHeight * w;
    RoundHalfEvenWithin(h * maxWidth, w, 0, maxHeight);
    RoundHalfEvenIsNearest(SingleAxisSize(src, Width, maxWidth, true).value.height, h * maxWidth, w);
  }

  /** When height has the larger or an equal zoom factor, the width it yields is at most maxWidth. */
  lemma HeightBindsFits(src: SourceSize, maxWidth: Int32, maxHeight: Int32)
    requires 0 < maxWidth < src.width && 0 < maxHeight < src.height
    requires src.width * maxHeight <= src.height * maxWidth
    ensures SingleAxisSize(src, Height, maxHeight, true).Ok?
    ensures FitsWithin(SingleAxisSize(src, Height, maxHeight, true).value, src, Both(maxWidth, maxHeight))
  {
    var w, h := src.width, src.height;
    SingleAxisFits(src, Height, maxHeight, true);
    assert w * maxHeight <= maxWidth * h;
    RoundHalfEvenWithin(w * maxHeight, h, 0, maxWidth);
    RoundHalfEvenIsNearest(SingleAxisSize(src, Height, maxHeight, true).value.width, w * maxHeight, h);
  }

  /** A shrinking scale factor limit / extent in [0, 1) keeps the rounded side in [0, other]. */
  lemma ScaledWithin(other: int, extent: int, limit: int)
    requires 0 <= other && 0 <= limit < extent
    ensures 0 <= RoundHalfEven(other * limit, extent) <= other
  {
    assert other * limit <= other * extent by { MulMonotone(other, limit, extent); }
    assert 0 <= other * limit by { MulMonotone(other, 0, limit); }
    RoundHalfEvenWithin(other * limit, extent, 0, other);
  }

  lemma MulMonotone(a: int, b: int, c: int)
    requires 0 <= a && b <= c
    ensures a * b <= a * c
  {
  }

  /** Convert.ToInt32 can only overflow on a negative limit. */
  lemma NoShrinkOverflow(other: int, extent: int, limit: int)
    requires 1 <= other <= INT32_MAX && 1 <= extent && limit < extent
    requires ConvertToInt32(other * limit, extent).None?
    ensures limit < 0
  {
    if 0 <= limit {
      ScaledWithin(other, extent, limit);
    }
  }
}
