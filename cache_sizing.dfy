/**
 * Size clamping for cached render targets: clip masks (`adjust_mask_scale_for_max_size`),
 * line decorations, the border rasterisation scale, and the device-space rectangle of a
 * primitive before clipping.
 */
module CacheSizing {
  import opened Common
  import opened Geometry

  /** Largest edge, in device pixels, of a clip-mask render task. */
  const MaxMaskSize: real := 4096.0

  /** A device rectangle together with the device-pixel scale it was computed at. */
  datatype MaskTarget = MaskTarget(rect: IntRect, scale: real)

  predicate ExceedsMaxMaskSize(r: Rect) {
    r.size.width > MaxMaskSize || r.size.height > MaxMaskSize
  }

  /** The uniform shrink factor applied to an oversized mask; the `- 1` leaves room for round-out. */
  function MaskShrinkFactor(r: Rect): real
    requires ExceedsMaxMaskSize(r)
  {
    (MaxMaskSize - 1.0) / Max(r.size.width, r.size.height)
  }

  lemma {:induction false} MaskShrinkFactorBounds(r: Rect)
    requires ExceedsMaxMaskSize(r)
    ensures 0.0 < MaskShrinkFactor(r) < 1.0
    ensures MaskShrinkFactor(r) * Max(r.size.width, r.size.height) == MaxMaskSize - 1.0
    ensures r.size.width * MaskShrinkFactor(r) <= MaxMaskSize - 1.0
    ensures r.size.height * MaskShrinkFactor(r) <= MaxMaskSize - 1.0
  {
    var m := Max(r.size.width, r.size.height);
    var f := MaskShrinkFactor(r);
    assert m > MaxMaskSize;
    assert f * m == MaxMaskSize - 1.0;
    MulMonotone(r.size.width, m, f);
    MulMonotone(r.size.height, m, f);
  }

  /**
   * Fits a proposed mask rectangle into MaxMaskSize: an oversized rectangle and its scale are
   * shrunk by MaskShrinkFactor and rounded out; any other is only cast to integers. Either way
   * neither integer dimension exceeds MaxMaskSize.
   */
  function AdjustMaskScaleForMaxSize(deviceRect: Rect, devicePixelScale: real): (t: MaskTarget)
    ensures t.rect.width as real <= MaxMaskSize && t.rect.height as real <= MaxMaskSize
  {
    if ExceedsMaxMaskSize(deviceRect) then
      var scale := MaskShrinkFactor(deviceRect);
      ShrunkMaskWithin(deviceRect);
      MaskTarget(RoundOut(ScaleRect(deviceRect, scale)), devicePixelScale * scale)
    else
      TruncWithin(deviceRect);
      MaskTarget(TruncRect(deviceRect), devicePixelScale)
  }

  lemma {:induction false} ShrunkMaskWithin(r: Rect)
    requires ExceedsMaxMaskSize(r)
    ensures RoundOut(ScaleRect(r, MaskShrinkFactor(r))).width as real <= MaxMaskSize
    ensures RoundOut(ScaleRect(r, MaskShrinkFactor(r))).height as real <= MaxMaskSize
  {
    MaskShrinkFactorBounds(r);
    RoundOutWithinMask(ScaleRect(r, MaskShrinkFactor(r)));
  }

  lemma {:induction false} RoundOutWithinMask(r: Rect)
    requires r.size.width <= MaxMaskSize - 1.0 && r.size.height <= MaxMaskSize - 1.0
    ensures RoundOut(r).width as real <= MaxMaskSize && RoundOut(r).height as real <= MaxMaskSize
  {
    var o := RoundOut(r);
    RoundOutGrowth(r);
    IntBelowNext(o.width, 4096);
    IntBelowNext(o.height, 4096);
  }

  lemma {:induction false} TruncWithin(r: Rect)
    requires !ExceedsMaxMaskSize(r)
    ensures TruncRect(r).width as real <= MaxMaskSize && TruncRect(r).height as real <= MaxMaskSize
  {}

  /** With a positive device-pixel scale, the scale changes exactly when the rectangle is oversized, and then only downwards. */
  lemma {:induction false} AdjustMaskScaleShrinksOnlyOversized(deviceRect: Rect, devicePixelScale: real)
    requires devicePixelScale > 0.0
    ensures var t := AdjustMaskScaleForMaxSize(deviceRect, devicePixelScale);
      && (t.scale == devicePixelScale <==> !ExceedsMaxMaskSize(deviceRect))
      && 0.0 < t.scale <= devicePixelScale
  {
    if ExceedsMaxMaskSize(deviceRect) {
      MaskShrinkFactorBounds(deviceRect);
      var f := MaskShrinkFactor(deviceRect);
      assert devicePixelScale * f < devicePixelScale * 1.0;
    }
  }

  /** A rectangle within the limit keeps its scale and its size, cast to integers. */
  lemma {:induction false} AdjustMaskKeepsSmallRects(deviceRect: Rect, devicePixelScale: real)
    requires 0.0 <= deviceRect.size.width <= MaxMaskSize && 0.0 <= deviceRect.size.height <= MaxMaskSize
    ensures var t := AdjustMaskScaleForMaxSize(deviceRect, devicePixelScale);
      && t.scale == devicePixelScale
      && t.rect.width == deviceRect.size.width.Floor && t.rect.height == deviceRect.size.height.Floor
  {}

  /** A 5000 x 100 pixel mask at scale 1 comes out within 4096 x 4096 at a scale below 1. */
  lemma {:induction false} OversizedMaskExample(origin: Point)
    ensures var t := AdjustMaskScaleForMaxSize(Rect(origin, Size(5000.0, 100.0)), 1.0);
      t.rect.width <= 4096 && t.rect.height <= 4096 && t.scale < 1.0
  {
    AdjustMaskScaleShrinksOnlyOversized(Rect(origin, Size(5000.0, 100.0)), 1.0);
  }

  /**
   * Device size of a cached line decoration: the key size scaled to device pixels and rounded
   * up; when either side exceeds `maxResolution` both are scaled down by
   * `maxResolution / max(width, height)` and rounded up again. Neither side of the result
   * exceeds `maxResolution`, and the clamp never makes a side larger.
   */
  function LineDecorationTaskSize(keySize: Size, devicePixelScale: real, maxResolution: int): (s: IntSize)
    requires maxResolution > 0
    ensures s.width <= maxResolution && s.height <= maxResolution
    ensures keySize.width * devicePixelScale >= 0.0 ==> s.width <= Ceil(keySize.width * devicePixelScale)
    ensures keySize.height * devicePixelScale >= 0.0 ==> s.height <= Ceil(keySize.height * devicePixelScale)
  {
    var a := keySize.width * devicePixelScale;
    var b := keySize.height * devicePixelScale;
    var w := Ceil(a);
    var h := Ceil(b);
    if w > maxResolution || h > maxResolution then
      var maxExtent := if w >= h then w else h;
      IntSize(ClampedSide(a, maxExtent, maxResolution), ClampedSide(b, maxExtent, maxResolution))
    else
      IntSize(w, h)
  }

  /** One side of a clamped line decoration: scaled by `maxResolution / maxExtent` and rounded up. */
  function ClampedSide(a: real, maxExtent: int, maxResolution: int): (r: int)
    requires 0 < maxResolution < maxExtent && Ceil(a) <= maxExtent
    ensures r <= maxResolution
    ensures a >= 0.0 ==> r <= Ceil(a)
  {
    LineDecorationClampBound(a, maxExtent, maxResolution);
    Ceil(a * (maxResolution as real / maxExtent as real))
  }

  lemma {:induction false} LineDecorationClampBound(a: real, maxExtent: int, maxResolution: int)
    requires 0 < maxResolution < maxExtent && Ceil(a) <= maxExtent
    ensures Ceil(a * (maxResolution as real / maxExtent as real)) <= maxResolution
    ensures a >= 0.0 ==> Ceil(a * (maxResolution as real / maxExtent as real)) <= Ceil(a)
  {
    var c := Ceil(a);
    assert (c as real) <= maxExtent as real;
    var e := maxExtent as real;
    var r := maxResolution as real;
    ScaledBound(a, e, r);
    CeilAtMost(a * (r / e), maxResolution);
    if a >= 0.0 {
      CeilMonotone(a * (r / e), a);
    }
  }

  /** Scaling by `r / e` maps values up to `e` to values up to `r`, and shrinks non-negative ones. */
  lemma {:induction false} ScaledBound(a: real, e: real, r: real)
    requires 0.0 < r < e && a <= e
    ensures a * (r / e) <= r
    ensures a >= 0.0 ==> a * (r / e) <= a
  {
    var f := r / e;
    RatioBelowOne(r, e);
    MulMonotone(a, e, f);
    assert e * f == f * e;
    if a >= 0.0 {
      ScaleDown(a, f);
    }
  }

  /**
   * Scale at which border segments are rasterised: the larger of the two normalised world
   * scale factors, times the device-pixel scale, capped by the border's own maximum.
   */
  function BorderRasterScale(scaleWidth: real, scaleHeight: real, devicePixelScale: real, maxScale: real): (s: real)
    ensures s <= maxScale
    ensures s <= Max(scaleWidth, scaleHeight) * devicePixelScale
    ensures s == maxScale || s == Max(scaleWidth, scaleHeight) * devicePixelScale
  {
    Min(Max(scaleWidth, scaleHeight) * devicePixelScale, maxScale)
  }

  /**
   * Device rectangle of a primitive before clipping: its picture-space clip rectangle mapped to
   * raster space by the (possibly failing) space mapper, then scaled to device pixels.
   */
  function UnclippedDeviceRect(picClipRect: Rect, mapPicToRaster: Rect -> Option<Rect>, devicePixelScale: real): (r: Option<Rect>)
    ensures r.Some? <==> mapPicToRaster(picClipRect).Some?
    ensures r.Some? && devicePixelScale != 0.0 ==>
      UnclippedRasterRect(r.value, devicePixelScale) == mapPicToRaster(picClipRect).value
  {
    match mapPicToRaster(picClipRect)
    case None => None
    case Some(raster) =>
      UnclippedRoundTrip(raster, devicePixelScale);
      Some(ScaleRect(raster, devicePixelScale))
  }

  /** First step of `get_clipped_device_rect`: back from device pixels to raster space. */
  function UnclippedRasterRect(unclipped: Rect, devicePixelScale: real): Rect {
    if devicePixelScale == 0.0 then unclipped else ScaleRect(unclipped, 1.0 / devicePixelScale)
  }

  lemma {:induction false} UnclippedRoundTrip(raster: Rect, devicePixelScale: real)
    ensures devicePixelScale != 0.0 ==>
      UnclippedRasterRect(ScaleRect(raster, devicePixelScale), devicePixelScale) == raster
  {
    if devicePixelScale != 0.0 {
      var inv := 1.0 / devicePixelScale;
      assert devicePixelScale * inv == 1.0;
      assert raster.origin.x * devicePixelScale * inv == raster.origin.x * (devicePixelScale * inv);
      assert raster.origin.y * devicePixelScale * inv == raster.origin.y * (devicePixelScale * inv);
      assert raster.size.width * devicePixelScale * inv == raster.size.width * (devicePixelScale * inv);
      assert raster.size.height * devicePixelScale * inv == raster.size.height * (devicePixelScale * inv);
    }
  }
}
