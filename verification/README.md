# Thumbnail sizing engine

A Dafny model of the sizing core of ThumbnailCreator. ThumbnailCreator is a desktop tool that writes
smaller copies of images. The core is the `Thumbnail` class. It has two `Create` overloads:

- One limits the thumbnail along one axis (`Dimension.Width` or `Dimension.Height`).
- The other bounds it by a maximum width and a maximum height.

Each overload can keep the aspect ratio or not. Each one ends in one of two resamplers:

- `ResizeImage` for `Normal` quality.
- `ResizeImageHQ` for `High` quality.

The model is functional:

- `Thumbnail.SingleAxisSize` and `Thumbnail.BothAxesSize` compute the target size. Each returns a
  `Result` that is either the size or an `Error`.
- `Thumbnail.ComputeSize` dispatches on a tagged `Constraint`: `SingleAxis(axis, limit)` or
  `Both(maxWidth, maxHeight)`. This replaces the C# overloading.
- `Thumbnail.Resample` stands for the two resamplers. Their filters are function-valued
  parameters (`Resamplers<P>`), and only the output size is specified.
- `Thumbnail.Create` sizes the thumbnail and then resamples the image.

The model has three errors:

- `NotSmaller` is the engine's own "the image would not get smaller by this resize operation".
- `Overflow` is the `OverflowException` of `Convert.ToInt32`.
- `InvalidSize` is the `ArgumentException` that the bitmap constructors raise for a side that is
  not positive. This is the library's documented behaviour, and the model assumes it.

The source does its arithmetic in `double`. The model idealises it as exact rational arithmetic:

- The kept-ratio side `other / (extent / limit)` becomes the fraction `other * limit / extent`.
- That fraction is rounded as `Convert.ToInt32` rounds: to nearest, ties to even, with an overflow
  check on the Int32 range (module `Rounding`).
- The dual-axis comparison `W / maxW > H / maxH` is made on exact fractions (module `Zoom`).
  With positive maxima it is the cross-multiplication `W * maxH > H * maxW`.
- A zero limit gives the IEEE value +Infinity as the zoom factor, and the model keeps that. The
  other side then becomes 0.

Limits are any C# `int`, because `Thumbnail.cs` does not check them. Only the form's numeric
fields bound them, to 1..100000. A limit of 0 or below therefore goes into the arithmetic as it does
in the source. With positive limits the model proves two things about the computed size:

- The size fits the bounds and never exceeds the source.
- The only sizing failure is `NotSmaller`. `Create` can still fail with `InvalidSize`: a kept-ratio
  side can round to 0 for an extreme aspect ratio.

`Convert.ToInt32` rounds half to even, so a kept-ratio side of 2.5 becomes 2 and one of 3.5
becomes 4.

## Model

| member | source | states |
|---|---|---|
| Rounding.RoundHalfEven | ThumbnailCreator/Thumbnail.cs:108 | The result is an integer nearest to n/d, and the even one on a tie (the rounding rule of `Convert.ToInt32`) |
| Rounding.ConvertToInt32 | ThumbnailCreator/Thumbnail.cs:113 | It returns the nearest-ties-to-even integer when that integer is a valid Int32, and it overflows exactly when no such Int32 exists |
| Rounding.NearestHalfEvenUnique | ThumbnailCreator/Thumbnail.cs:108 | At most one integer satisfies the nearest-ties-to-even rule, so the rounding is a function of the quotient |
| Rounding.RoundHalfEvenIsNearest | ThumbnailCreator/Thumbnail.cs:113 | RoundHalfEven(n, d) == r holds exactly when r is the nearest-ties-to-even integer to n/d, in both directions |
| Rounding.NearestHalfEvenAsReal | ThumbnailCreator/Thumbnail.cs:108 | The integer rule on n and d agrees with rounding the real quotient n/d to within one half, ties to even |
| Rounding.RoundHalfEvenWithin | ThumbnailCreator/Thumbnail.cs:113 | A quotient between two integers rounds to a value between them |
| Zoom.FactorOf | ThumbnailCreator/Thumbnail.cs:177-178 | The zoom factor extent / limit is infinite exactly when the limit is 0, and otherwise is a fraction with a positive denominator and the value extent / limit |
| Zoom.Greater | ThumbnailCreator/Thumbnail.cs:180 | The `double` comparison `zoomFactorWidth > zoomFactorHeight`. On finite factors it is the order of their real values. +Infinity is greater than every finite factor and not greater than itself, and no finite factor is greater than +Infinity |
| Zoom.GreaterOfZeroLimit | ThumbnailCreator/Thumbnail.cs:177-180 | The factor of a zero limit (+Infinity) is greater than the factor of any non-zero limit, not smaller than it, and not greater than another zero-limit factor |
| Zoom.GreaterOfNonZeroLimits | ThumbnailCreator/Thumbnail.cs:175-180 | With non-zero maxima, negative ones included, the zoom comparison holds iff `W/maxW > H/maxH` over the reals |
| Zoom.GreaterOfPositiveLimits | ThumbnailCreator/Thumbnail.cs:175-180 | With positive maxima, the zoom comparison `W/maxW > H/maxH` holds iff `W*maxH > H*maxW`, and iff it holds over the reals |
| Thumbnail.SingleAxisSize | ThumbnailCreator/Thumbnail.cs:80-116 | It fails with NotSmaller iff the source extent along the axis is at most the limit. On success that axis equals the limit. Without the ratio the other side is the source's. With the ratio the other side is other*limit/extent rounded half to even. It fails with Overflow iff the ratio is kept, the request shrinks, and that rounding leaves the Int32 range, which needs a negative limit |
| Thumbnail.BothAxesSize | ThumbnailCreator/Thumbnail.cs:138-189 | It fails with NotSmaller iff both sides already fit. Without the ratio the result is (min(W, maxW), min(H, maxH)). With the ratio an exceeding axis becomes exactly its maximum. Overflow is possible only for a negative maximum |
| Thumbnail.ComputeSize | ThumbnailCreator/Thumbnail.cs:131-189 | It fails with NotSmaller iff the constraint would not shrink the image. With positive limits a shrinking request always succeeds, and the size fits every bound and stays within the source |
| Thumbnail.Resample | ThumbnailCreator/Thumbnail.cs:37-71 | The output has exactly the requested width and height, with pixels from the bulk filter (Normal) or the bicubic filter (High). It fails with InvalidSize iff a side is not positive |
| Thumbnail.Create | ThumbnailCreator/Thumbnail.cs:118-128 | It fails with NotSmaller iff the request would not shrink the image, and passes every sizing error on unchanged. When the computed size has positive sides it succeeds, with exactly that size and the pixels of the filter the quality selects. InvalidSize arises iff the computed size has a side that is not positive |
| Thumbnail.SingleAxisFits | ThumbnailCreator/Thumbnail.cs:83-115 | With 0 < limit < extent the single-axis size exists, has the limit on its axis, and does not exceed the source |
| Thumbnail.BothAxesFit | ThumbnailCreator/Thumbnail.cs:131-189 | With positive maxima and a shrinking request the dual-axis size exists, fits within maxWidth x maxHeight, and does not exceed the source |
| Thumbnail.WidthBindsFits | ThumbnailCreator/Thumbnail.cs:180-183 | When the width's zoom factor is strictly larger, the height scaled from the width stays within maxHeight |
| Thumbnail.HeightBindsFits | ThumbnailCreator/Thumbnail.cs:184-187 | When the height's zoom factor is larger or equal, the width scaled from the height stays within maxWidth |
| Thumbnail.ScaledWithin | ThumbnailCreator/Thumbnail.cs:112-113 | Scaling a side by limit/extent, with 0 <= limit < extent, rounds to a value between 0 and the side |
| Thumbnail.NoShrinkOverflow | ThumbnailCreator/Thumbnail.cs:106-113 | On a shrinking request, Convert.ToInt32 can only overflow when the limit is negative |
| ThumbnailProperties.BothKeepRatioDelegates | ThumbnailCreator/Thumbnail.cs:163-188 | With the ratio kept, the dual-axis size equals the single-axis size of the only exceeding axis. When both exceed with non-zero maxima (negative ones included), it is the width result iff W/maxW > H/maxH strictly, else the height result (ties go to height). When both exceed and a maximum is 0, that axis's infinite zoom factor binds, and height binds when both are 0 |
| ThumbnailProperties.CreateBothKeepRatioDelegates | ThumbnailCreator/Thumbnail.cs:165-187 | The same delegation holds for the returned images: the dual-axis Create returns exactly what the single-axis Create returns on the binding axis |
| ThumbnailProperties.KeepRatioMatchesQuotient | ThumbnailCreator/Thumbnail.cs:101-115 | With 0 < limit < extent the other side is the integer nearest to the real quotient other / (extent / limit), ties to even, and lies between 0 and the source's other side |
| ThumbnailProperties.ZeroLimitYieldsEmptySide | ThumbnailCreator/Thumbnail.cs:104-115 | A zero limit with the ratio kept makes the size (0, 0), so Create fails with InvalidSize |
| ThumbnailProperties.ExtremeRatioYieldsEmptySide | ThumbnailCreator/Thumbnail.cs:110-115 | Nothing guards positivity: a 1000 x 1 image limited to width 1 gets size (1, 0), and Create fails with InvalidSize |
| ThumbnailProperties.Scenarios | ThumbnailCreator/Thumbnail.cs:80-189 | Concrete sizes: 1000x500 to width 200 gives (200,100) with the ratio kept and (200,500) without. 300x300 within 200x200 gives (200,200). 100x100 within 200x200 is NotSmaller. 800x600 within 400x500 gives (400,300). 4x5 to width 2 gives height 2, and 4x7 to width 2 gives height 4 (2.5 and 3.5 tie to the even neighbour) |

## Left out

- Pixel content of `ResizeImage`/`ResizeImageHQ` (Thumbnail.cs:37-71) is left out. GDI+ bicubic filtering, compositing, smoothing, wrap mode and pixel offset are opaque library calls. The model takes the filters as function parameters and specifies only the output size.
- DPI metadata is left out. `ResizeImageHQ` copies the source resolution onto the output; the model's images carry no resolution.
- The `new Bitmap(0, 0)` fallback branches (Thumbnail.cs:127, 198) are left out, because an out-of-range enum value is not modelled. A C# enum can hold any int: a `ThumbnailQuality` read back from the settings file (Settings.cs:29, 46) with another value reaches that branch and throws. A `Dimension` with neither value leaves the size at (0, 0) (Thumbnail.cs:86-116). The model's `Quality` and `Dimension` have exactly the two named values.
- The IEEE-754 rounding error of the `double` quotients and zoom factors is left out. The model uses exact rationals. The one IEEE value kept is the infinite zoom factor of a zero limit.
- Other resource failures of the bitmap constructors are left out. This includes out-of-memory for huge sizes. Only the rejection of a side that is not positive is modelled.
- The caller in `FormMain.cs` is left out: form handling, file listing, file deletion, process launching, and the choice between "Beides", "Breite" and "Höhe". Its two single-axis call sites (FormMain.cs:125, 129) pass the limit and the `Dimension` in the wrong order for the single-axis overload, so the model follows the `Thumbnail.cs` signatures.
- `GetFileSizeString` (FormMain.cs:183-194) is left out. It uses floating-point division and culture-dependent formatting.
- `Settings.cs`, `Log.cs` and `JsonSerializer.cs` are left out. They are file I/O, clock-stamped logging, and a wrapper over a JSON library.
