/**
 * The per-frame state the prepare pass reads and writes: primitive instances and their kinds,
 * per-instance visibility info, clip chains, brush segments, the scratch buffer's append-only
 * stores, and the render-task graph that receives clip-mask tasks.
 */
module Primitives {
  import opened Common
  import opened Geometry
  import opened CacheSizing

  /** An instance's slot in the scratch buffer's visibility table, or `Invalid` once culled. */
  datatype VisibilityIndex = InvalidVisibility | VisibilityAt(index: nat)

  /** The tri-state index of a primitive's segment instance. */
  datatype SegmentInstanceIndex =
    | Invalid         // not built yet
    | Unused          // built, but not worth splitting
    | SegmentsAt(index: nat)

  /** Where a primitive's clip-mask entries start in `clip_mask_instances`. */
  datatype ClipTaskIndex = NoClipTask | ClipTaskAt(index: nat)

  /** The clip-mask decision for one segment of a primitive. */
  datatype ClipMaskKind = NoMask | Clipped | Mask(taskId: nat)

  datatype ClipMode = Clip | ClipOut

  datatype BoxShadowClipMode = Outset | Inset

  datatype BoxShadowSource = BoxShadowSource(clipMode: BoxShadowClipMode, primShadowRect: Rect, originalAllocSize: Size)

  datatype ClipItemKind =
    | RoundedRectangle(rect: Rect, radius: real, mode: ClipMode)
    | Rectangle(rect: Rect, mode: ClipMode)
    | BoxShadow(source: BoxShadowSource)
    | ImageMask

  /** A clip of a clip chain, with its `SAME_SPATIAL_NODE` flag. */
  datatype ClipInstance = ClipInstance(sameSpatialNode: bool, kind: ClipItemKind)

  datatype ClipChainInstance = ClipChainInstance(
    clips: seq<ClipInstance>,
    picClipRect: Rect,
    needsMask: bool,
    hasNonLocalClips: bool)

  /** One entry of the visibility table. */
  datatype PrimitiveVisibility = PrimitiveVisibility(
    clippedWorldRect: Rect,
    visibilityMask: set<nat>,
    clipChain: ClipChainInstance,
    clipTaskIndex: ClipTaskIndex,
    combinedLocalClipRect: Rect)

  datatype BrushSegment = BrushSegment(localRect: Rect, mayNeedClipMask: bool, edgeFlags: nat)

  /** A half-open range of a store. */
  datatype Range = Range(start: nat, end: nat)

  datatype SegmentedInstance = SegmentedInstance(segmentsRange: Range)

  /**
   * The instance kinds. An image's segment index lives in the image instance store, and a
   * picture's segment flags in the picture store; both are carried here with the kind.
   */
  datatype PrimitiveKind =
    | RectanglePrim(segmentInstanceIndex: SegmentInstanceIndex)
    | YuvImage(segmentInstanceIndex: SegmentInstanceIndex)
    | Image(segmentInstanceIndex: SegmentInstanceIndex, isTiled: bool)
    | Picture(segmentInstanceIndex: SegmentInstanceIndex, canUseSegments: bool, segmentsAreValid: bool)
    | NormalBorder(brushSegments: seq<BrushSegment>)
    | ImageBorder(brushSegments: seq<BrushSegment>)
    | LinearGradient(brushSegments: seq<BrushSegment>)
    | RadialGradient(brushSegments: seq<BrushSegment>)
    | ConicGradient(brushSegments: seq<BrushSegment>)
    | TextRun
    | Clear
    | LineDecoration
    | Backdrop

  /** A placed primitive: its kind, visibility slot, local clip rect and local primitive rect. */
  datatype PrimitiveInstance = PrimitiveInstance(
    kind: PrimitiveKind,
    visibilityInfo: VisibilityIndex,
    localClipRect: Rect,
    localPrimRect: Rect)

  /** The kinds whose segment index the pass builds and then reads. */
  predicate HasSegmentIndex(k: PrimitiveKind) {
    k.RectanglePrim? || k.YuvImage? || k.Image? || k.Picture?
  }

  /**
   * The scratch buffer's stores: brush segments and the segment instances that own ranges of
   * them, the clip-mask entries, and the visibility table.
   */
  class PrimitiveScratchBuffer {
    var segments: seq<BrushSegment>
    var segmentInstances: seq<SegmentedInstance>
    var clipMaskInstances: seq<ClipMaskKind>
    var primInfo: seq<PrimitiveVisibility>

    /** Every segment instance owns a range of at least two segments inside the store. */
    predicate Valid()
      reads this
    {
      forall i :: 0 <= i < |segmentInstances| ==>
        segmentInstances[i].segmentsRange.start + 2 <= segmentInstances[i].segmentsRange.end <= |segments|
    }

    constructor (primInfo: seq<PrimitiveVisibility>)
      ensures Valid()
      ensures segments == [] && segmentInstances == [] && clipMaskInstances == []
      ensures this.primInfo == primInfo
    {
      segments := [];
      segmentInstances := [];
      clipMaskInstances := [];
      this.primInfo := primInfo;
    }

    /** The segments a segment instance owns. */
    function SegmentsOf(i: nat): (s: seq<BrushSegment>)
      reads this
      requires Valid() && i < |segmentInstances|
      ensures |s| >= 2
    {
      segments[segmentInstances[i].segmentsRange.start..segmentInstances[i].segmentsRange.end]
    }

    /**
     * `segments_store.extend(segments)` followed by `segment_instances_store.push(..)`: stores
     * a new instance owning the appended segments and returns its index.
     */
    method PushSegmentInstance(newSegments: seq<BrushSegment>) returns (index: nat)
      requires Valid() && |newSegments| >= 2
      modifies this
      ensures Valid()
      ensures segments == old(segments) + newSegments
      ensures segmentInstances == old(segmentInstances) + [SegmentedInstance(Range(|old(segments)|, |segments|))]
      ensures index == |old(segmentInstances)|
      ensures SegmentsOf(index) == newSegments
      ensures clipMaskInstances == old(clipMaskInstances) && primInfo == old(primInfo)
    {
      var start := |segments|;
      segments := segments + newSegments;
      var range := Range(start, |segments|);
      index := |segmentInstances|;
      segmentInstances := segmentInstances + [SegmentedInstance(range)];
      assert segments[start..|segments|] == newSegments;
    }

    /** Appends one clip-mask entry and returns its position. */
    method PushClipMask(kind: ClipMaskKind) returns (index: nat)
      modifies this
      ensures clipMaskInstances == old(clipMaskInstances) + [kind]
      ensures index == |old(clipMaskInstances)|
      ensures segments == old(segments) && segmentInstances == old(segmentInstances) && primInfo == old(primInfo)
    {
      index := |clipMaskInstances|;
      clipMaskInstances := clipMaskInstances + [kind];
    }
  }

  datatype RenderTask = MaskTask(rect: IntRect, devicePixelScale: real)

  /** An edge saying that task `from` reads the output of task `to`. */
  datatype Dependency = Dependency(from: nat, to: nat)

  /** The part of the render-task graph the prepare pass adds to. */
  class RenderTaskGraph {
    var tasks: seq<RenderTask>
    var edges: seq<Dependency>

    /** Every clip-mask task has a consumer: some task depends on it. */
    predicate Valid()
      reads this
    {
      AllConsumed(tasks, edges)
    }

    constructor ()
      ensures Valid()
      ensures tasks == [] && edges == []
    {
      tasks := [];
      edges := [];
    }

    /**
     * A clip-mask task wired to the surface that consumes it: `new_mask` followed by
     * `add_dependency(port, task)`, as both mask paths of the prepare pass do.
     */
    method AddMaskTask(port: nat, target: MaskTarget) returns (id: nat)
      modifies this
      ensures old(Valid()) ==> Valid()
      ensures id == |old(tasks)|
      ensures tasks == old(tasks) + [MaskTask(target.rect, target.scale)]
      ensures edges == old(edges) + [Dependency(port, id)]
    {
      id := NewMask(target);
      AddDependency(port, id);
      if old(Valid()) {
        AllConsumedExtend(old(tasks), old(edges), [MaskTask(target.rect, target.scale)], [Dependency(port, id)]);
      }
    }

    /** `RenderTask::new_mask`: adds a clip-mask task and returns its id. */
    method NewMask(target: MaskTarget) returns (id: nat)
      modifies this
      ensures tasks == old(tasks) + [MaskTask(target.rect, target.scale)]
      ensures id == |old(tasks)|
      ensures edges == old(edges)
    {
      id := |tasks|;
      tasks := tasks + [MaskTask(target.rect, target.scale)];
    }

    /** `add_dependency`. */
    method AddDependency(from: nat, to: nat)
      modifies this
      ensures edges == old(edges) + [Dependency(from, to)]
      ensures tasks == old(tasks)
    {
      edges := edges + [Dependency(from, to)];
    }
  }

  /** Some edge points at task `id`. */
  predicate HasConsumer(edges: seq<Dependency>, id: nat) {
    exists j :: 0 <= j < |edges| && edges[j].to == id
  }

  predicate AllConsumed(tasks: seq<RenderTask>, edges: seq<Dependency>) {
    forall i :: 0 <= i < |tasks| ==> HasConsumer(edges, i)
  }

  /**
   * Appending tasks together with one edge to each of them, in order, keeps every task
   * consumed.
   */
  lemma {:induction false} AllConsumedExtend(tasks: seq<RenderTask>, edges: seq<Dependency>, newTasks: seq<RenderTask>, newEdges: seq<Dependency>)
    requires AllConsumed(tasks, edges)
    requires |newEdges| == |newTasks|
    requires forall j :: 0 <= j < |newEdges| ==> newEdges[j].to == |tasks| + j
    ensures AllConsumed(tasks + newTasks, edges + newEdges)
  {
    var all := edges + newEdges;
    forall i | 0 <= i < |tasks + newTasks|
      ensures HasConsumer(all, i)
    {
      if i < |tasks| {
        assert HasConsumer(edges, i);
        var j :| 0 <= j < |edges| && edges[j].to == i;
        assert all[j] == edges[j];
      } else {
        assert all[|edges| + (i - |tasks|)] == newEdges[i - |tasks|];
      }
    }
  }

  datatype BorderStyle = NoBorder | Solid | Double | Dotted | Dashed | Hidden | Groove | Ridge | Inset | Outset

  /** A normal border may need repetition in the shader exactly when one of its sides is dotted or dashed. */
  function BorderMayNeedRepetition(top: BorderStyle, right: BorderStyle, bottom: BorderStyle, left: BorderStyle): (r: bool)
    ensures r <==> exists s :: s in {top, right, bottom, left} && Patterned(s)
  {
    Patterned(top) || Patterned(right) || Patterned(bottom) || Patterned(left)
  }

  predicate Patterned(s: BorderStyle) {
    s == Dotted || s == Dashed
  }

  /**
   * The border flag is a property of the border's styles as a whole: it depends only on which
   * styles the four sides use, so rotating or mirroring the border, or any other rearrangement
   * of its sides, never changes it.
   */
  lemma {:induction false} BorderFlagOrderFree(
    top: BorderStyle, right: BorderStyle, bottom: BorderStyle, left: BorderStyle,
    top2: BorderStyle, right2: BorderStyle, bottom2: BorderStyle, left2: BorderStyle)
    requires {top, right, bottom, left} == {top2, right2, bottom2, left2}
    ensures BorderMayNeedRepetition(top, right, bottom, left) == BorderMayNeedRepetition(top2, right2, bottom2, left2)
  {
    BorderFlagCarriesOver(top, right, bottom, left, top2, right2, bottom2, left2);
    BorderFlagCarriesOver(top2, right2, bottom2, left2, top, right, bottom, left);
  }

  /** One direction of the above: a patterned side of the first border is a side of the second. */
  lemma {:induction false} BorderFlagCarriesOver(
    top: BorderStyle, right: BorderStyle, bottom: BorderStyle, left: BorderStyle,
    top2: BorderStyle, right2: BorderStyle, bottom2: BorderStyle, left2: BorderStyle)
    requires {top, right, bottom, left} == {top2, right2, bottom2, left2}
    ensures BorderMayNeedRepetition(top, right, bottom, left) ==> BorderMayNeedRepetition(top2, right2, bottom2, left2)
  {
    var sides2 := {top2, right2, bottom2, left2};
    if Patterned(top) {
      assert top in sides2;
      assert Patterned(top2) || Patterned(right2) || Patterned(bottom2) || Patterned(left2);
    } else if Patterned(right) {
      assert right in sides2;
      assert Patterned(top2) || Patterned(right2) || Patterned(bottom2) || Patterned(left2);
    } else if Patterned(bottom) {
      assert bottom in sides2;
      assert Patterned(top2) || Patterned(right2) || Patterned(bottom2) || Patterned(left2);
    } else if Patterned(left) {
      assert left in sides2;
      assert Patterned(top2) || Patterned(right2) || Patterned(bottom2) || Patterned(left2);
    }
  }

  /**
   * An image or linear gradient stops needing repetition once one stretch covers the whole
   * primitive; otherwise the template's flag is kept.
   */
  function StretchMayNeedRepetition(mayNeedRepetition: bool, stretchSize: Size, primSize: Size): (r: bool)
    ensures r ==> mayNeedRepetition
    ensures r <==> mayNeedRepetition && (stretchSize.width < primSize.width || stretchSize.height < primSize.height)
  {
    if stretchSize.width >= primSize.width && stretchSize.height >= primSize.height then false
    else mayNeedRepetition
  }

  /**
   * What the flag means for the shader: it stays set exactly when the template asked for
   * repetition and the single stretch placed at the primitive's origin does not contain the
   * primitive, so the shader has to draw more than one copy.
   */
  lemma {:induction false} StretchFlagMeansUncovered(mayNeedRepetition: bool, stretchSize: Size, primRect: Rect)
    ensures StretchMayNeedRepetition(mayNeedRepetition, stretchSize, primRect.size)
      <==> mayNeedRepetition && !Contains(Rect(primRect.origin, stretchSize), primRect)
  {
    var stretch := Rect(primRect.origin, stretchSize);
    assert Contains(stretch, primRect)
      <==> stretchSize.width >= primRect.size.width && stretchSize.height >= primRect.size.height;
  }

  /**
   * The flag lives on the interned template and so persists from frame to frame: each frame
   * feeds the previous frame's flag back into the stretch test. With the same sizes a second
   * frame leaves the flag as the first did, so the flag does not drift across frames.
   */
  lemma {:induction false} StretchMayNeedRepetitionIdempotent(mayNeedRepetition: bool, stretchSize: Size, primSize: Size)
    ensures var once := StretchMayNeedRepetition(mayNeedRepetition, stretchSize, primSize);
      StretchMayNeedRepetition(once, stretchSize, primSize) == once
  {}
}
