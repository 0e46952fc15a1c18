/**
 * Properties of the sizing engine that relate several calls: how the dual-axis overload
 * delegates to the single-axis one, how the kept ratio compares with the real quotient
 * the source computes, and the sizes the engine gives on a few concrete inputs.
 */
module ThumbnailProperties {
  import opened Wrappers
  import opened Rounding
  import opened Thumbnail
  import Zoom

  /**
   * With the ratio kept, the dual-axis size is the single-axis size along the binding axis:
   * the only axis that is too large, or, when both are, width exactly when its zoom factor
   * W / maxW is strictly larger than H / maxH, height otherwise (ties included). This holds
   * for negative maxima too; a zero maximum has the infinite factor.
   */
  lemma BothKeepRatioDelegates(src: SourceSize, maxWidth: Int32, maxHeight: Int32)
    ensures src.width > maxWidth && src.height <= maxHeight ==>
      BothAxesSize(src, maxWidth, maxHeight, true) == SingleAxisSize(src, Width, maxWidth, true)
    ensures src.width <= maxWidth && src.height > maxHeight ==>
      BothAxesSize(src, maxWidth, maxHeight, true) == SingleAxisSize(src, Height, maxHeight, true)
    ensures src.width > maxWidth && src.height > maxHeight && maxWidth != 0 && maxHeight != 0 ==>
      BothAxesSize(src, maxWidth, maxHeight, true)
        == (if src.width as real / maxWidth as real > src.height as real / maxHeight as real
            then SingleAxisSize(src, Width, maxWidth, true)
            else SingleAxisSize(src, Height, maxHeight, true))
    ensures src.width > maxWidth && src.height > maxHeight && maxWidth == 0 && maxHeight != 0 ==>
      BothAxesSize(src, maxWidth, maxHeight, true) == SingleAxisSize(src, Width, maxWidth, true)
    ensures src.width > maxWidth && src.height > maxHeight && maxHeight == 0 ==>
      BothAxesSize(src, maxWidth, maxHeight, true) == SingleAxisSize(src, Height, maxHeight, true)
  {
    if maxWidth != 0 && maxHeight != 0 {
      Zoom.GreaterOfNonZeroLimits(src.width, maxWidth, src.height, maxHeight);
    } else if maxWidth == 0 && maxHeight != 0 {
      Zoom.GreaterOfZeroLimit(src.width, src.height, maxHeight);
    } else if maxHeight == 0 && maxWidth != 0 {
      Zoom.GreaterOfZeroLimit(src.height, src.width, maxWidth);
    }
  }

  /** The same delegation, for the thumbnail images the two overloads return. */
  lemma CreateBothKeepRatioDelegates<P>(
    img: Image<P>, maxWidth: Int32, maxHeight: Int32, quality: Quality, filters: Resamplers<P>)
    requires 0 < maxWidth && 0 < maxHeight
    ensures img.width > maxWidth && img.height <= maxHeight ==>
      Create(img, Both(maxWidth, maxHeight), true, quality, filters)
        == Create(img, SingleAxis(Width, maxWidth), true, quality, filters)
    ensures img.width <= maxWidth && img.height > maxHeight ==>
      Create(img, Both(maxWidth, maxHeight), true, quality, filters)
        == Create(img, SingleAxis(Height, maxHeight), true, quality, filters)
    ensures img.width > maxWidth && img.height > maxHeight ==>
      Create(img, Both(maxWidth, maxHeight), true, quality, filters)
        == (if img.width as real / maxWidth as real > img.height as real / maxHeight as real
            then Create(img, SingleAxis(Width, maxWidth), true, quality, filters)
            else Create(img, SingleAxis(Height, maxHeight), true, quality, filters))
  {
    BothKeepRatioDelegates(img.Dims(), maxWidth, maxHeight);
  }

  /**
   * With the ratio kept and a positive limit, the other side is the integer nearest to
   * `other / (extent / limit)`, the quotient the source takes in double, ties to even;
   * it never exceeds the source's other side.
   */
  lemma KeepRatioMatchesQuotient(src: SourceSize, axis: Dimension, limit: Int32)
    requires 0 < limit < Along(src, axis)
    ensures SingleAxisSize(src, axis, limit, true).Ok?
    ensures NearestHalfEvenReal(
      Along(SingleAxisSize(src, axis, limit, true).value, Other(axis)),
      Along(src, Other(axis)) as real / (Along(src, axis) as real / limit as real))
    ensures 0 <= Along(SingleAxisSize(src, axis, limit, true).value, Other(axis)) <= Along(src, Other(axis))
  {
    var other, extent := Along(src, Other(axis)), Along(src, axis);
    var r := Along(SingleAxisSize(src, axis, limit, true).value, Other(axis));
    SingleAxisFits(src, axis, limit, true);
    NearestHalfEvenAsReal(r, other * limit, extent);
    DivideByQuotient(other, extent, limit);
  }

  lemma DivideByQuotient(a: int, e: int, l: int)
    requires e > 0 && l > 0
    ensures a as real / (e as real / l as real) == (a * l) as real / e as real
  {
  }

  /**
   * A zero limit makes the double zoom factor +Infinity: the other side becomes 0 and the
   * bitmap constructor rejects the size.
   */
  lemma ZeroLimitYieldsEmptySide<P>(
    img: Image<P>, axis: Dimension, quality: Quality, filters: Resamplers<P>)
    ensures SingleAxisSize(img.Dims(), axis, 0, true).Ok?
    ensures Along(SingleAxisSize(img.Dims(), axis, 0, true).value, Other(axis)) == 0
    ensures Create(img, SingleAxis(axis, 0), true, quality, filters) == Err(InvalidSize)
  {
  }

  /**
   * Nothing keeps a kept-ratio side positive: a 1000 x 1 image limited to width 1 gets
   * height round(1 / 1000) = 0, and the resample then fails.
   */
  lemma ExtremeRatioYieldsEmptySide<P>(img: Image<P>, quality: Quality, filters: Resamplers<P>)
    requires img.width == 1000 && img.height == 1
    ensures ComputeSize(img.Dims(), SingleAxis(Width, 1), true) == Ok(Size(1, 0))
    ensures Create(img, SingleAxis(Width, 1), true, quality, filters) == Err(InvalidSize)
  {
  }

  /** Sizes the engine gives on representative inputs. */
  lemma Scenarios()
    ensures ComputeSize(Size(1000, 500), SingleAxis(Width, 200), true) == Ok(Size(200, 100))
    ensures ComputeSize(Size(1000, 500), SingleAxis(Width, 200), false) == Ok(Size(200, 500))
    ensures ComputeSize(Size(300, 300), Both(200, 200), true) == Ok(Size(200, 200))
    ensures ComputeSize(Size(100, 100), Both(200, 200), true) == Err(NotSmaller)
    ensures ComputeSize(Size(800, 600), Both(400, 500), true) == Ok(Size(400, 300))
    ensures ComputeSize(Size(3, 1), SingleAxis(Width, 2), true) == Ok(Size(2, 1))
    ensures ComputeSize(Size(4, 5), SingleAxis(Width, 2), true) == Ok(Size(2, 2))
    ensures ComputeSize(Size(4, 7), SingleAxis(Width, 2), true) == Ok(Size(2, 4))
  {
  }
}
