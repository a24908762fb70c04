/**
 * Brush segmentation: describing a primitive's local clips to the segment builder
 * (`write_brush_segment_description`), building and storing the resulting segments once per
 * primitive (`build_segments_if_needed`), and reading a stored segment instance back
 * (`write_segment`).
 */
module SegmentBuilding {
  import opened Common
  import opened Geometry
  import opened Primitives

  /** Primitives with a smaller local area are drawn whole with one clip mask. */
  const MinBrushSplitArea: real := 128.0 * 128.0

  /** What the builder has been told about one clip. */
  datatype BuilderItem =
    | ClipRectItem(rect: Rect, radius: Option<real>, mode: ClipMode)
    | MaskRegionItem(outer: Rect, inner: Rect, innerMode: Option<ClipMode>)

  /** A segment as the builder hands it back, in the primitive's coordinate space. */
  datatype BuiltSegment = BuiltSegment(rect: Rect, hasMask: bool, edgeFlags: nat)

  /**
   * The builder's splitting itself, which is not part of this model: from the primitive rect,
   * the clip rect and the described items to the segments it emits, in order.
   */
  type BuildFn = (Rect, Rect, seq<BuilderItem>) -> seq<BuiltSegment>

  /** The segment builder's input state: the rectangles it splits and the items pushed so far. */
  class SegmentBuilder {
    var primRect: Rect
    var clipRect: Rect
    var items: seq<BuilderItem>

    constructor ()
      ensures items == []
    {
      primRect := Rect(Point(0.0, 0.0), Size(0.0, 0.0));
      clipRect := Rect(Point(0.0, 0.0), Size(0.0, 0.0));
      items := [];
    }

    /** Starts a new description, forgetting the previous one. */
    method Initialize(primRect: Rect, clipRect: Rect)
      modifies this
      ensures this.primRect == primRect && this.clipRect == clipRect && items == []
    {
      this.primRect := primRect;
      this.clipRect := clipRect;
      items := [];
    }

    method PushClipRect(rect: Rect, radius: Option<real>, mode: ClipMode)
      modifies this
      ensures items == old(items) + [ClipRectItem(rect, radius, mode)]
      ensures primRect == old(primRect) && clipRect == old(clipRect)
    {
      items := items + [ClipRectItem(rect, radius, mode)];
    }

    method PushMaskRegion(outer: Rect, inner: Rect, innerMode: Option<ClipMode>)
      modifies this
      ensures items == old(items) + [MaskRegionItem(outer, inner, innerMode)]
      ensures primRect == old(primRect) && clipRect == old(clipRect)
    {
      items := items + [MaskRegionItem(outer, inner, innerMode)];
    }

    /** The segments the builder emits for its current description. */
    function Build(build: BuildFn): seq<BuiltSegment>
      reads this
    {
      build(primRect, clipRect, items)
    }
  }

  /**
   * The item one clip contributes: a rounded or plain clip rectangle, or for a box shadow the
   * region between its shadow rect and that rect shrunk by half its blur allocation, clipped
   * out for an inset shadow. Image masks contribute none (they abort the description).
   */
  function ItemOf(c: ClipItemKind): seq<BuilderItem> {
    match c
    case RoundedRectangle(rect, radius, mode) => [ClipRectItem(rect, Some(radius), mode)]
    case Rectangle(rect, mode) => [ClipRectItem(rect, None, mode)]
    case BoxShadow(src) =>
      var inner := Inflate(src.primShadowRect, -0.5 * src.originalAllocSize.width, -0.5 * src.originalAllocSize.height);
      [MaskRegionItem(src.primShadowRect, inner, if src.clipMode.Outset? then None else Some(ClipOut))]
    case ImageMask => []
  }

  /** A clip positioned by the primitive's own spatial node whose pixels are unknown. */
  predicate IsSameNodeImage(c: ClipInstance) {
    c.sameSpatialNode && c.kind.ImageMask?
  }

  predicate HasSameNodeImageMask(clips: seq<ClipInstance>) {
    exists i :: 0 <= i < |clips| && IsSameNodeImage(clips[i])
  }

  /**
   * The items described for a clip chain: each same-node clip's item in chain order, stopping
   * at the first same-node image mask; clips of other spatial nodes are skipped.
   */
  function DescribedItems(clips: seq<ClipInstance>): seq<BuilderItem> {
    if clips == [] then []
    else if !clips[0].sameSpatialNode then DescribedItems(clips[1..])
    else if clips[0].kind.ImageMask? then []
    else ItemOf(clips[0].kind) + DescribedItems(clips[1..])
  }

  /** Whether the description succeeds: the primitive is large enough and has no same-node image mask. */
  predicate DescriptionSucceeds(primLocalRect: Rect, clips: seq<ClipInstance>) {
    Area(primLocalRect.size) >= MinBrushSplitArea && !HasSameNodeImageMask(clips)
  }

  /** The items of one clip are appended after those of a prefix with no image mask. */
  lemma {:induction false} DescribedItemsSnoc(clips: seq<ClipInstance>, c: ClipInstance)
    requires !HasSameNodeImageMask(clips)
    ensures DescribedItems(clips + [c]) ==
      DescribedItems(clips) + (if !c.sameSpatialNode then [] else ItemOf(c.kind))
  {
    if clips == [] {
      assert [c][1..] == [];
    } else {
      assert (clips + [c])[1..] == clips[1..] + [c];
      assert !HasSameNodeImageMask(clips[1..]) by {
        forall i | 0 <= i < |clips[1..]| ensures !IsSameNodeImage(clips[1..][i]) {
          assert clips[1..][i] == clips[i + 1];
        }
      }
      assert !IsSameNodeImage(clips[0]);
      DescribedItemsSnoc(clips[1..], c);
    }
  }

  /** A same-node image mask ends the description: later clips add nothing. */
  lemma {:induction false} DescribedItemsStopAtImage(clips: seq<ClipInstance>, rest: seq<ClipInstance>)
    requires !HasSameNodeImageMask(clips) && |rest| > 0 && IsSameNodeImage(rest[0])
    ensures DescribedItems(clips + rest) == DescribedItems(clips)
  {
    if clips == [] {
      assert clips + rest == rest;
    } else {
      assert (clips + rest)[1..] == clips[1..] + rest;
      assert !HasSameNodeImageMask(clips[1..]) by {
        forall i | 0 <= i < |clips[1..]| ensures !IsSameNodeImage(clips[1..][i]) {
          assert clips[1..][i] == clips[i + 1];
        }
      }
      assert !IsSameNodeImage(clips[0]);
      DescribedItemsStopAtImage(clips[1..], rest);
    }
  }

  /** Each clip contributes at most one item, so the builder never sees more items than clips. */
  lemma {:induction false} DescribedItemsBound(clips: seq<ClipInstance>)
    ensures |DescribedItems(clips)| <= |clips|
  {
    if clips != [] {
      DescribedItemsBound(clips[1..]);
    }
  }

  /** The clips of the primitive's own spatial node. */
  function SameNodeClips(clips: seq<ClipInstance>): (out: seq<ClipInstance>)
    ensures |out| <= |clips|
    ensures forall i :: 0 <= i < |out| ==> out[i].sameSpatialNode
  {
    if clips == [] then []
    else if clips[0].sameSpatialNode then [clips[0]] + SameNodeClips(clips[1..])
    else SameNodeClips(clips[1..])
  }

  /** Clips positioned by other spatial nodes never shape the segments. */
  lemma {:induction false} DescribedItemsIgnoreOtherNodes(clips: seq<ClipInstance>)
    ensures DescribedItems(clips) == DescribedItems(SameNodeClips(clips))
  {
    if clips != [] {
      DescribedItemsIgnoreOtherNodes(clips[1..]);
      if clips[0].sameSpatialNode {
        var s := SameNodeClips(clips);
        assert s == [clips[0]] + SameNodeClips(clips[1..]);
        assert s[0] == clips[0] && s[1..] == SameNodeClips(clips[1..]);
      }
    }
  }

  /**
   * Describes the primitive's clips to the builder. A primitive below `MinBrushSplitArea` is
   * refused with the builder untouched; otherwise the builder is reset and receives the items
   * of the same-node clips, and the description fails at the first same-node image mask.
   */
  method WriteBrushSegmentDescription(
    primLocalRect: Rect, primLocalClipRect: Rect, clipChain: ClipChainInstance, builder: SegmentBuilder)
    returns (ok: bool)
    modifies builder
    ensures ok <==> DescriptionSucceeds(primLocalRect, clipChain.clips)
    ensures Area(primLocalRect.size) < MinBrushSplitArea ==>
      builder.primRect == old(builder.primRect) && builder.clipRect == old(builder.clipRect) && builder.items == old(builder.items)
    ensures Area(primLocalRect.size) >= MinBrushSplitArea ==>
      builder.primRect == primLocalRect && builder.clipRect == primLocalClipRect
      && builder.items == DescribedItems(clipChain.clips)
  {
    if Area(primLocalRect.size) < MinBrushSplitArea {
      return false;
    }
    builder.Initialize(primLocalRect, primLocalClipRect);
    var clips := clipChain.clips;
    for i := 0 to |clips|
      invariant builder.primRect == primLocalRect && builder.clipRect == primLocalClipRect
      invariant !HasSameNodeImageMask(clips[..i])
      invariant builder.items == DescribedItems(clips[..i])
    {
      var c := clips[i];
      assert clips[..i + 1] == clips[..i] + [c];
      DescribedItemsSnoc(clips[..i], c);
      if !c.sameSpatialNode {
        continue;
      }
      match c.kind {
        case RoundedRectangle(rect, radius, mode) =>
          builder.PushClipRect(rect, Some(radius), mode);
        case Rectangle(rect, mode) =>
          builder.PushClipRect(rect, None, mode);
        case BoxShadow(src) =>
          var innerMode := if src.clipMode.Outset? then None else Some(ClipOut);
          builder.PushMaskRegion(
            src.primShadowRect,
            Inflate(src.primShadowRect, -0.5 * src.originalAllocSize.width, -0.5 * src.originalAllocSize.height),
            innerMode);
        case ImageMask =>
          assert clips == clips[..i] + clips[i..];
          DescribedItemsStopAtImage(clips[..i], clips[i..]);
          return false;
      }
      ghost var seen := clips[..i + 1];
      assert !HasSameNodeImageMask(seen) by {
        forall j | 0 <= j < |seen| ensures !IsSameNodeImage(seen[j]) {
          if j < i {
            assert seen[j] == clips[..i][j];
          }
        }
      }
    }
    assert clips[..|clips|] == clips;
    return true;
  }

  /** A built segment moved into the primitive's local space (origin at the primitive's origin). */
  function ToBrushSegment(s: BuiltSegment, origin: Point): BrushSegment {
    BrushSegment(Translate(s.rect, Point(-origin.x, -origin.y)), s.hasMask, s.edgeFlags)
  }

  /** The builder's output moved into the primitive's local space. */
  function ToBrushSegments(built: seq<BuiltSegment>, origin: Point): (segs: seq<BrushSegment>)
    ensures |segs| == |built|
    ensures forall i :: 0 <= i < |built| ==> segs[i] == ToBrushSegment(built[i], origin)
  {
    seq(|built|, i requires 0 <= i < |built| => ToBrushSegment(built[i], origin))
  }

  /** The segments stored for a primitive whose index is rebuilt: none when the description fails. */
  function BuiltSegments(primLocalRect: Rect, localClipRect: Rect, clips: seq<ClipInstance>, build: BuildFn): (segs: seq<BrushSegment>)
    ensures !DescriptionSucceeds(primLocalRect, clips) ==> segs == []
    ensures DescriptionSucceeds(primLocalRect, clips) ==>
      var built := build(primLocalRect, localClipRect, DescribedItems(clips));
      |segs| == |built|
      && forall i :: 0 <= i < |segs| ==>
        segs[i].localRect.origin == Point(built[i].rect.origin.x - primLocalRect.origin.x, built[i].rect.origin.y - primLocalRect.origin.y)
        && segs[i].localRect.size == built[i].rect.size
        && segs[i].mayNeedClipMask == built[i].hasMask
  {
    if DescriptionSucceeds(primLocalRect, clips) then
      ToBrushSegments(build(primLocalRect, localClipRect, DescribedItems(clips)), primLocalRect.origin)
    else []
  }

  /** Collects the builder's output, translated to the primitive's local space. */
  method CollectSegments(builder: SegmentBuilder, build: BuildFn, origin: Point) returns (segs: seq<BrushSegment>)
    ensures segs == ToBrushSegments(builder.Build(build), origin)
  {
    var built := builder.Build(build);
    segs := [];
    for i := 0 to |built|
      invariant segs == ToBrushSegments(built[..i], origin)
    {
      assert built[..i + 1] == built[..i] + [built[i]];
      segs := segs + [ToBrushSegment(built[i], origin)];
    }
    assert built[..|built|] == built;
  }

  /**
   * The segment index the pass works on, or `None` where it returns early: kinds without
   * segments, tiled images and pictures that cannot use segments. A picture whose segments were
   * invalidated is worked on as `Invalid`.
   */
  function PendingIndex(k: PrimitiveKind): Option<SegmentInstanceIndex> {
    match k
    case RectanglePrim(idx) => Some(idx)
    case YuvImage(idx) => Some(idx)
    case Image(idx, isTiled) => if isTiled then None else Some(idx)
    case Picture(idx, canUse, valid) =>
      if !canUse then None else if !valid then Some(Invalid) else Some(idx)
    case _ => None
  }

  /** The kind with its segment index replaced; a picture's segments are marked valid again. */
  function WithSegmentIndex(k: PrimitiveKind, idx: SegmentInstanceIndex): (r: PrimitiveKind)
    requires HasSegmentIndex(k)
    ensures HasSegmentIndex(r) && r.segmentInstanceIndex == idx
    ensures k.RectanglePrim? ==> r == RectanglePrim(idx)
    ensures k.YuvImage? ==> r == YuvImage(idx)
    ensures k.Image? ==> r == Image(idx, k.isTiled)
    ensures k.Picture? ==> r == Picture(idx, k.canUseSegments, true)
  {
    match k
    case RectanglePrim(_) => RectanglePrim(idx)
    case YuvImage(_) => YuvImage(idx)
    case Image(_, isTiled) => Image(idx, isTiled)
    case Picture(_, canUse, _) => Picture(idx, canUse, true)
  }

  /** Every stored segment index of the kind points into a store of `n` instances. */
  predicate SegmentIndexWithin(k: PrimitiveKind, n: nat) {
    HasSegmentIndex(k) && k.segmentInstanceIndex.SegmentsAt? ==> k.segmentInstanceIndex.index < n
  }

  /**
   * The kind after `build_segments_if_needed`, given the segments the builder produced and the
   * number of stored instances: a tiled image becomes `Unused`, a resolved index is kept, and
   * an `Invalid` one becomes `Unused` or the next stored instance.
   */
  function SegmentedKind(kind: PrimitiveKind, segs: seq<BrushSegment>, n: nat): (r: PrimitiveKind)
    ensures PendingIndex(kind).Some? ==> HasSegmentIndex(r) && r.segmentInstanceIndex != Invalid
    ensures kind.Image? && kind.isTiled ==> r == Image(Unused, true)
    ensures !HasSegmentIndex(kind) ==> r == kind
  {
    match PendingIndex(kind)
    case None => if kind.Image? then Image(Unused, true) else kind
    case Some(idx) =>
      if idx != Invalid then WithSegmentIndex(kind, idx)
      else if |segs| <= 1 then WithSegmentIndex(kind, Unused)
      else WithSegmentIndex(kind, SegmentsAt(n))
  }

  /**
   * `build_segments_if_needed`: a primitive whose pending index is `Invalid` has its segments
   * described and built; fewer than two make it `Unused`, otherwise they are stored as a new
   * segment instance. A tiled image is marked `Unused`. Afterwards no primitive the pass works on
   * is left `Invalid`, which is what the clip-task pass relies on.
   */
  method BuildSegmentsIfNeeded(
    kind: PrimitiveKind, primLocalRect: Rect, localClipRect: Rect, clipChain: ClipChainInstance,
    scratch: PrimitiveScratchBuffer, builder: SegmentBuilder, build: BuildFn)
    returns (newKind: PrimitiveKind)
    requires scratch.Valid() && SegmentIndexWithin(kind, |scratch.segmentInstances|)
    modifies scratch, builder
    ensures scratch.Valid() && SegmentIndexWithin(newKind, |scratch.segmentInstances|)
    ensures scratch.clipMaskInstances == old(scratch.clipMaskInstances) && scratch.primInfo == old(scratch.primInfo)
    ensures PendingIndex(kind).Some? ==> HasSegmentIndex(newKind) && newKind.segmentInstanceIndex != Invalid
    ensures newKind == SegmentedKind(kind, BuiltSegments(primLocalRect, localClipRect, clipChain.clips, build), |old(scratch.segmentInstances)|)
    ensures PendingIndex(kind).None? ==>
      newKind == (if kind.Image? then Image(Unused, true) else kind)
      && scratch.segments == old(scratch.segments) && scratch.segmentInstances == old(scratch.segmentInstances)
    ensures PendingIndex(kind).Some? && PendingIndex(kind).value != Invalid ==>
      newKind == WithSegmentIndex(kind, PendingIndex(kind).value)
      && scratch.segments == old(scratch.segments) && scratch.segmentInstances == old(scratch.segmentInstances)
    ensures PendingIndex(kind) == Some(Invalid) ==>
      var segs := BuiltSegments(primLocalRect, localClipRect, clipChain.clips, build);
      if |segs| <= 1 then
        newKind == WithSegmentIndex(kind, Unused)
        && scratch.segments == old(scratch.segments) && scratch.segmentInstances == old(scratch.segmentInstances)
      else
        newKind == WithSegmentIndex(kind, SegmentsAt(|old(scratch.segmentInstances)|))
        && scratch.segments == old(scratch.segments) + segs
        && scratch.segmentInstances == old(scratch.segmentInstances) + [SegmentedInstance(Range(|old(scratch.segments)|, |scratch.segments|))]
        && scratch.SegmentsOf(|old(scratch.segmentInstances)|) == segs
    ensures PendingIndex(kind) != Some(Invalid) ==> unchanged(builder)
  {
    var pending := PendingIndex(kind);
    if pending.None? {
      if kind.Image? {
        return Image(Unused, true);
      }
      return kind;
    }
    var idx := pending.value;
    if idx != Invalid {
      return WithSegmentIndex(kind, idx);
    }
    var segs: seq<BrushSegment> := [];
    var ok := WriteBrushSegmentDescription(primLocalRect, localClipRect, clipChain, builder);
    if ok {
      segs := CollectSegments(builder, build, primLocalRect.origin);
    }
    assert segs == BuiltSegments(primLocalRect, localClipRect, clipChain.clips, build);
    if |segs| <= 1 {
      newKind := WithSegmentIndex(kind, Unused);
    } else {
      var index := scratch.PushSegmentInstance(segs);
      newKind := WithSegmentIndex(kind, SegmentsAt(index));
    }
  }

  /** A primitive below the split area, or with a same-node image mask, is never segmented. */
  lemma {:induction false} UnsplittablePrimitivesGetNoSegments(primLocalRect: Rect, localClipRect: Rect, clips: seq<ClipInstance>, build: BuildFn)
    requires Area(primLocalRect.size) < MinBrushSplitArea || HasSameNodeImageMask(clips)
    ensures BuiltSegments(primLocalRect, localClipRect, clips, build) == []
  {}

  /** The local rectangles of a stored segment instance, in store order. */
  function SegmentRects(segs: seq<BrushSegment>): (rects: seq<Rect>)
    ensures |rects| == |segs|
    ensures forall i :: 0 <= i < |segs| ==> rects[i] == segs[i].localRect
  {
    seq(|segs|, i requires 0 <= i < |segs| => segs[i].localRect)
  }

  /**
   * `write_segment`: when the instance's cache entry needs writing, the primitive header is
   * written followed by the local rectangle of each segment the instance owns; an `Unused`
   * index writes nothing. An `Invalid` index is a caller error.
   */
  method WriteSegment(index: SegmentInstanceIndex, needsWrite: bool, scratch: PrimitiveScratchBuffer)
    returns (wroteHeader: bool, rects: seq<Rect>)
    requires index != Invalid
    requires scratch.Valid() && (index.SegmentsAt? ==> index.index < |scratch.segmentInstances|)
    ensures wroteHeader <==> index.SegmentsAt? && needsWrite
    ensures wroteHeader ==> rects == SegmentRects(scratch.SegmentsOf(index.index))
    ensures !wroteHeader ==> rects == []
  {
    wroteHeader := false;
    rects := [];
    if index.SegmentsAt? && needsWrite {
      wroteHeader := true;
      var range := scratch.segmentInstances[index.index].segmentsRange;
      for k := range.start to range.end
        invariant rects == SegmentRects(scratch.segments[range.start..k])
      {
        assert scratch.segments[range.start..k + 1] == scratch.segments[range.start..k] + [scratch.segments[k]];
        rects := rects + [scratch.segments[k].localRect];
      }
    }
  }
}
