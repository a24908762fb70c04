/**
 * CPU decomposition of repeated gradient primitives with tile spacing: the visible repetitions
 * become tiles appended to the scratch buffer's gradient-tile store, and a primitive that
 * ends up with no tile is culled.
 */
module Tiles {
  import opened Common
  import opened Geometry
  import opened Primitives

  /** One repetition of a gradient, with the clip rectangle it is drawn under. */
  datatype VisibleGradientTile = VisibleGradientTile(localRect: Rect, localClipRect: Rect)

  /** `GradientTileRange::empty()`. */
  const EmptyTileRange: Range := Range(0, 0)

  predicate IsEmptyRange(r: Range) {
    r.start == r.end
  }

  /**
   * The conservative visible rectangle of a clip rectangle (`compute_conservative_visible_rect`)
   * and the origins of the repetitions of a primitive inside a visible rectangle at a stride
   * (`image_tiling::repetitions`): neither is part of this model.
   */
  type VisibleRectFn = (Rect, Rect) -> Rect
  type RepetitionsFn = (Rect, Rect, Size) -> seq<Point>

  /** The scratch buffer's gradient-tile store. */
  class GradientTileStorage {
    var tiles: seq<VisibleGradientTile>

    constructor ()
      ensures tiles == []
    {
      tiles := [];
    }

    /** Appends tiles and returns the range that holds them. */
    method Extend(newTiles: seq<VisibleGradientTile>) returns (range: Range)
      modifies this
      ensures tiles == old(tiles) + newTiles
      ensures range == Range(|old(tiles)|, |tiles|)
    {
      range := Range(|tiles|, |tiles| + |newTiles|);
      tiles := tiles + newTiles;
    }
  }

  /**
   * The tiles of a repeated primitive: one per repetition origin, each one stretch in size and
   * drawn under the primitive's clip rectangle tightened to the primitive.
   */
  function RepeatedTiles(origins: seq<Point>, stretchSize: Size, tightClipRect: Rect): (ts: seq<VisibleGradientTile>)
    ensures |ts| == |origins|
    ensures forall k :: 0 <= k < |origins| ==> ts[k] == VisibleGradientTile(Rect(origins[k], stretchSize), tightClipRect)
  {
    seq(|origins|, k requires 0 <= k < |origins| => VisibleGradientTile(Rect(origins[k], stretchSize), tightClipRect))
  }

  /** Adding sizes: the stride between repetitions is the stretch size plus the spacing. */
  function Stride(stretchSize: Size, tileSpacing: Size): Size {
    Size(stretchSize.width + tileSpacing.width, stretchSize.height + tileSpacing.height)
  }

  /**
   * `decompose_repeated_primitive`: appends one tile per visible repetition and returns the
   * range holding them, or the empty range with the store untouched when nothing is visible.
   * The primitive's combined clip rectangle must intersect its rectangle.
   */
  method DecomposeRepeatedPrimitive(
    combinedLocalClipRect: Rect, primLocalRect: Rect, primWorldRect: Rect,
    stretchSize: Size, tileSpacing: Size,
    visibleRectOf: VisibleRectFn, repetitions: RepetitionsFn,
    storage: GradientTileStorage)
    returns (range: Range)
    requires Intersects(combinedLocalClipRect, primLocalRect)
    modifies storage
    ensures var tight := Intersection(combinedLocalClipRect, primLocalRect).value;
      var origins := repetitions(primLocalRect, visibleRectOf(tight, primWorldRect), Stride(stretchSize, tileSpacing));
      if origins == [] then
        range == EmptyTileRange && storage.tiles == old(storage.tiles)
      else
        && storage.tiles == old(storage.tiles) + RepeatedTiles(origins, stretchSize, tight)
        && range == Range(|old(storage.tiles)|, |storage.tiles|)
  {
    var tight := Intersection(combinedLocalClipRect, primLocalRect).value;
    var visibleRect := visibleRectOf(tight, primWorldRect);
    var origins := repetitions(primLocalRect, visibleRect, Stride(stretchSize, tileSpacing));
    var visibleTiles: seq<VisibleGradientTile> := [];
    for k := 0 to |origins|
      invariant visibleTiles == RepeatedTiles(origins[..k], stretchSize, tight)
    {
      visibleTiles := visibleTiles + [VisibleGradientTile(Rect(origins[k], stretchSize), tight)];
    }
    assert origins[..|origins|] == origins;
    if visibleTiles == [] {
      range := EmptyTileRange;
    } else {
      range := storage.Extend(visibleTiles);
    }
  }

  /**
   * A returned range is empty exactly when nothing was visible, and otherwise addresses
   * exactly the new tiles, each clipped to a rectangle inside both the primitive and its clip.
   */
  lemma {:induction false} DecomposedRangeAddressesTiles(
    oldTiles: seq<VisibleGradientTile>, origins: seq<Point>, stretchSize: Size,
    combinedLocalClipRect: Rect, primLocalRect: Rect)
    requires Intersects(combinedLocalClipRect, primLocalRect)
    requires origins != []
    ensures var tight := Intersection(combinedLocalClipRect, primLocalRect).value;
      var tiles := oldTiles + RepeatedTiles(origins, stretchSize, tight);
      var range := Range(|oldTiles|, |tiles|);
      && !IsEmptyRange(range)
      && tiles[range.start..range.end] == RepeatedTiles(origins, stretchSize, tight)
      && forall k :: range.start <= k < range.end ==>
        Contains(primLocalRect, tiles[k].localClipRect) && Contains(combinedLocalClipRect, tiles[k].localClipRect)
  {
    var tight := Intersection(combinedLocalClipRect, primLocalRect).value;
    var added := RepeatedTiles(origins, stretchSize, tight);
    var tiles := oldTiles + added;
    assert tiles[|oldTiles|..|tiles|] == added;
    forall k | |oldTiles| <= k < |tiles|
      ensures Contains(primLocalRect, tiles[k].localClipRect) && Contains(combinedLocalClipRect, tiles[k].localClipRect)
    {
      assert tiles[k] == added[k - |oldTiles|];
    }
  }

  /**
   * The repetition flag of a gradient template after the tile arm: cleared when one stretch
   * covers the primitive, and cleared again when tile spacing makes the decomposition happen
   * on the CPU.
   */
  function TiledMayNeedRepetition(mayNeedRepetition: bool, stretchSize: Size, primSize: Size, tileSpacing: Size): (r: bool)
    ensures r <==> (mayNeedRepetition && tileSpacing == Size(0.0, 0.0)
                    && (stretchSize.width < primSize.width || stretchSize.height < primSize.height))
  {
    var afterStretch := StretchMayNeedRepetition(mayNeedRepetition, stretchSize, primSize);
    if tileSpacing != Size(0.0, 0.0) then false else afterStretch
  }

  /**
   * The tile arm only ever clears the flag, and it leaves it set exactly for a gradient that the
   * shader repeats itself (no tile spacing) and whose single stretch at the primitive's origin
   * does not contain the primitive.
   */
  lemma {:induction false} TiledFlagMeansShaderRepetition(mayNeedRepetition: bool, stretchSize: Size, primRect: Rect, tileSpacing: Size)
    ensures TiledMayNeedRepetition(mayNeedRepetition, stretchSize, primRect.size, tileSpacing) ==> mayNeedRepetition
    ensures TiledMayNeedRepetition(mayNeedRepetition, stretchSize, primRect.size, tileSpacing)
      <==> mayNeedRepetition && tileSpacing == Size(0.0, 0.0) && !Contains(Rect(primRect.origin, stretchSize), primRect)
  {
    StretchFlagMeansUncovered(mayNeedRepetition, stretchSize, primRect);
  }

  /**
   * The tile arm of a linear, radial or conic gradient: with no tile spacing the template keeps
   * its repetition flag (up to the stretch test) and nothing is decomposed; with spacing the
   * primitive is decomposed into tiles and is culled when none is visible.
   */
  method PrepareTiledGradient(
    mayNeedRepetition: bool, stretchSize: Size, tileSpacing: Size, primLocalRect: Rect,
    info: PrimitiveVisibility, visibility: VisibilityIndex,
    visibleRectOf: VisibleRectFn, repetitions: RepetitionsFn,
    storage: GradientTileStorage)
    returns (newMayNeedRepetition: bool, tilesRange: Option<Range>, newVisibility: VisibilityIndex)
    requires tileSpacing != Size(0.0, 0.0) ==> Intersects(info.combinedLocalClipRect, primLocalRect)
    modifies storage
    ensures newMayNeedRepetition == TiledMayNeedRepetition(mayNeedRepetition, stretchSize, primLocalRect.size, tileSpacing)
    ensures tilesRange.Some? ==> !newMayNeedRepetition
    ensures tileSpacing == Size(0.0, 0.0) ==>
      tilesRange.None? && newVisibility == visibility && storage.tiles == old(storage.tiles)
    ensures tileSpacing != Size(0.0, 0.0) ==>
      var tight := Intersection(info.combinedLocalClipRect, primLocalRect).value;
      var origins := repetitions(primLocalRect, visibleRectOf(tight, info.clippedWorldRect), Stride(stretchSize, tileSpacing));
      && tilesRange.Some?
      && (IsEmptyRange(tilesRange.value) <==> origins == [])
      && (newVisibility == InvalidVisibility <==> origins == [] || visibility == InvalidVisibility)
      && (origins != [] ==> newVisibility == visibility)
      && storage.tiles == old(storage.tiles) + RepeatedTiles(origins, stretchSize, tight)
  {
    newMayNeedRepetition := StretchMayNeedRepetition(mayNeedRepetition, stretchSize, primLocalRect.size);
    newVisibility := visibility;
    tilesRange := None;
    if tileSpacing != Size(0.0, 0.0) {
      newMayNeedRepetition := false;
      var range := DecomposeRepeatedPrimitive(
        info.combinedLocalClipRect, primLocalRect, info.clippedWorldRect,
        stretchSize, tileSpacing, visibleRectOf, repetitions, storage);
      tilesRange := Some(range);
      if IsEmptyRange(range) {
        newVisibility := InvalidVisibility;
      }
    }
  }
}
