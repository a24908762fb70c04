/**
 * Clip-mask task creation: for each brush segment (or for the whole primitive when it is not
 * segmented) the pass decides between no mask, fully clipped, and a new clip-mask render task
 * sized to the clipped device rectangle, records that decision in the clip-mask store, and
 * wires every new task to the surface that consumes it.
 */
module ClipTasks {
  import opened Common
  import opened Geometry
  import opened CacheSizing
  import opened Primitives
  import opened SegmentBuilding

  /**
   * The coordinate-space mappers of the picture being prepared, which are not part of this
   * model: each may fail (`None`) when a rectangle has no image in the target space.
   */
  datatype Mappers = Mappers(
    picToRaster: Rect -> Option<Rect>,
    picToWorld: Rect -> Option<Rect>,
    rasterToWorld: Rect -> Option<Rect>,
    worldToRaster: Rect -> Option<Rect>,
    rasterToDevice: (Rect, real) -> Rect)

  /**
   * The raster-space rectangle a clip mask must cover: the primitive's unclipped rectangle taken
   * back to raster space, mapped to world space, cut to the bounding rectangle, mapped back and
   * cut to the unclipped rectangle again. Every step may fail, and an empty result is refused.
   */
  function ClippedRasterRect(unclipped: Rect, m: Mappers, primBoundingRect: Rect, devicePixelScale: real): (r: Option<Rect>)
    ensures r.Some? ==> Contains(UnclippedRasterRect(unclipped, devicePixelScale), r.value) && !IsEmpty(r.value)
    ensures r.Some? ==>
      var world := m.rasterToWorld(UnclippedRasterRect(unclipped, devicePixelScale));
      world.Some? && Intersects(world.value, primBoundingRect)
  {
    var raster := UnclippedRasterRect(unclipped, devicePixelScale);
    match m.rasterToWorld(raster)
    case None => None
    case Some(world) =>
      match Intersection(world, primBoundingRect)
      case None => None
      case Some(clippedWorld) =>
        match m.worldToRaster(clippedWorld)
        case None => None
        case Some(back) =>
          match Intersection(back, raster)
          case None => None
          case Some(clipped) => if IsEmpty(clipped) then None else Some(clipped)
  }

  /** `get_clipped_device_rect`: the clipped raster rectangle converted to device pixels. */
  function ClippedDeviceRect(unclipped: Rect, m: Mappers, primBoundingRect: Rect, devicePixelScale: real): Option<Rect> {
    match ClippedRasterRect(unclipped, m, primBoundingRect, devicePixelScale)
    case None => None
    case Some(clipped) => Some(m.rasterToDevice(clipped, devicePixelScale))
  }

  /** What the per-primitive clip-task code knows: the bounding rectangle, mappers and unclipped device rect. */
  datatype ClipContext = ClipContext(primBoundingRect: Rect, mappers: Mappers, unclipped: Rect, devicePixelScale: real)

  /** The decision for one segment: no mask, clipped out entirely, or a mask of the given target. */
  datatype SegmentClipOutcome = NoMaskNeeded | ClippedOut | NeedsMask(target: MaskTarget)

  /**
   * The decision of `update_brush_segment_clip_task`. A segment without a clip chain is clipped
   * out; one whose chain needs no mask, or whose chain has only local clips the segment is not
   * affected by, needs none; one whose world rectangle is missing, misses the bounding
   * rectangle or clips to nothing is clipped out; the rest need a mask no larger than
   * `MaxMaskSize` on either side.
   */
  function SegmentClipDecision(segment: BrushSegment, chain: Option<ClipChainInstance>, ctx: ClipContext): (o: SegmentClipOutcome)
    ensures chain.None? ==> o == ClippedOut
    ensures chain.Some? ==>
      (o == NoMaskNeeded <==> !chain.value.needsMask || (!segment.mayNeedClipMask && !chain.value.hasNonLocalClips))
    ensures o.NeedsMask? ==> o.target.rect.width as real <= MaxMaskSize && o.target.rect.height as real <= MaxMaskSize
    ensures o.NeedsMask? <==>
      chain.Some? && chain.value.needsMask && (segment.mayNeedClipMask || chain.value.hasNonLocalClips)
      && var world := ctx.mappers.picToWorld(chain.value.picClipRect);
      world.Some? && Intersects(world.value, ctx.primBoundingRect)
      && ClippedDeviceRect(ctx.unclipped, ctx.mappers, Intersection(world.value, ctx.primBoundingRect).value, ctx.devicePixelScale).Some?
  {
    match chain
    case None => ClippedOut
    case Some(c) =>
      if !c.needsMask || (!segment.mayNeedClipMask && !c.hasNonLocalClips) then NoMaskNeeded
      else
        match ctx.mappers.picToWorld(c.picClipRect)
        case None => ClippedOut
        case Some(world) =>
          match Intersection(world, ctx.primBoundingRect)
          case None => ClippedOut
          case Some(segmentWorld) =>
            match ClippedDeviceRect(ctx.unclipped, ctx.mappers, segmentWorld, ctx.devicePixelScale)
            case None => ClippedOut
            case Some(deviceRect) => NeedsMask(AdjustMaskScaleForMaxSize(deviceRect, ctx.devicePixelScale))
  }

  /** The clip-mask entry recorded for a decision, naming task `id` when a mask is made. */
  function MaskKindFor(o: SegmentClipOutcome, id: nat): ClipMaskKind {
    match o
    case NoMaskNeeded => NoMask
    case ClippedOut => Clipped
    case NeedsMask(_) => Mask(id)
  }

  /** The task a decision adds to the graph, if any. */
  function TaskOf(o: SegmentClipOutcome): seq<RenderTask> {
    if o.NeedsMask? then [MaskTask(o.target.rect, o.target.scale)] else []
  }

  /** The edge from the surface to the task a decision adds, if any. */
  function EdgeOf(o: SegmentClipOutcome, port: nat, id: nat): seq<Dependency> {
    if o.NeedsMask? then [Dependency(port, id)] else []
  }

  /** The tasks a sequence of decisions adds, in order. */
  function NewTasks(os: seq<SegmentClipOutcome>): (ts: seq<RenderTask>)
    ensures |ts| <= |os|
  {
    if os == [] then [] else NewTasks(os[..|os| - 1]) + TaskOf(os[|os| - 1])
  }

  /** The clip-mask entries of a sequence of decisions whose new tasks are numbered from `base`. */
  function MaskKinds(os: seq<SegmentClipOutcome>, base: nat): (ks: seq<ClipMaskKind>)
    ensures |ks| == |os|
  {
    if os == [] then []
    else
      var prefix := os[..|os| - 1];
      MaskKinds(prefix, base) + [MaskKindFor(os[|os| - 1], base + |NewTasks(prefix)|)]
  }

  /** The edges wiring the new tasks, numbered from `base`, to the surface `port`. */
  function NewEdges(os: seq<SegmentClipOutcome>, port: nat, base: nat): seq<Dependency> {
    if os == [] then []
    else
      var prefix := os[..|os| - 1];
      NewEdges(prefix, port, base) + EdgeOf(os[|os| - 1], port, base + |NewTasks(prefix)|)
  }

  /**
   * Each recorded entry matches its decision, and a mask entry names exactly the new task made
   * for that segment: the ids are distinct, consecutive from `base`, and in segment order.
   */
  lemma {:induction false} MaskKindsReferToNewTasks(os: seq<SegmentClipOutcome>, base: nat)
    ensures var ks := MaskKinds(os, base);
      var ts := NewTasks(os);
      forall i :: 0 <= i < |os| ==>
        && (ks[i] == NoMask <==> os[i] == NoMaskNeeded)
        && (ks[i] == Clipped <==> os[i] == ClippedOut)
        && (ks[i].Mask? <==> os[i].NeedsMask?)
        && (ks[i].Mask? ==>
              base <= ks[i].taskId < base + |ts| && ts[ks[i].taskId - base] == MaskTask(os[i].target.rect, os[i].target.scale))
  {
    var ks := MaskKinds(os, base);
    var ts := NewTasks(os);
    forall i | 0 <= i < |os|
      ensures && (ks[i] == NoMask <==> os[i] == NoMaskNeeded)
        && (ks[i] == Clipped <==> os[i] == ClippedOut)
        && (ks[i].Mask? <==> os[i].NeedsMask?)
        && (ks[i].Mask? ==>
              base <= ks[i].taskId < base + |ts| && ts[ks[i].taskId - base] == MaskTask(os[i].target.rect, os[i].target.scale))
    {
      MaskKindRefersToTask(os, base, i);
    }
  }

  /** Decision `i`'s entry matches it, and a mask entry names the task made for it. */
  lemma {:induction false} MaskKindRefersToTask(os: seq<SegmentClipOutcome>, base: nat, i: nat)
    requires i < |os|
    ensures var k := MaskKinds(os, base)[i];
      var ts := NewTasks(os);
      && (k == NoMask <==> os[i] == NoMaskNeeded)
      && (k == Clipped <==> os[i] == ClippedOut)
      && (k.Mask? <==> os[i].NeedsMask?)
      && (k.Mask? ==> base <= k.taskId < base + |ts| && ts[k.taskId - base] == MaskTask(os[i].target.rect, os[i].target.scale))
  {
    MaskKindAt(os, base, i);
    if os[i].NeedsMask? {
      TakeSnoc(os, i);
      NewTasksPrefix(os, i + 1);
      var m := |NewTasks(os[..i])|;
      assert NewTasks(os[..i + 1]) == NewTasks(os[..i]) + [MaskTask(os[i].target.rect, os[i].target.scale)];
      assert NewTasks(os)[m] == NewTasks(os[..i + 1])[m];
    }
  }

  /** The entry of decision `i` names the task numbered after those of the decisions before it. */
  lemma {:induction false} MaskKindAt(os: seq<SegmentClipOutcome>, base: nat, i: nat)
    requires i < |os|
    ensures MaskKinds(os, base)[i] == MaskKindFor(os[i], base + |NewTasks(os[..i])|)
    decreases |os|
  {
    if i < |os| - 1 {
      var prefix := os[..|os| - 1];
      MaskKindAt(prefix, base, i);
      MaskKindsKeepPrefix(os, base, i);
    } else {
      MaskKindLast(os, base);
    }
  }

  /** The entry of the last decision is numbered after the tasks of the decisions before it. */
  lemma {:induction false} MaskKindLast(os: seq<SegmentClipOutcome>, base: nat)
    requires |os| > 0
    ensures MaskKinds(os, base)[|os| - 1] == MaskKindFor(os[|os| - 1], base + |NewTasks(os[..|os| - 1])|)
  {
  }

  /** Dropping the last decision keeps the entries of the decisions before `i`. */
  lemma {:induction false} MaskKindsKeepPrefix(os: seq<SegmentClipOutcome>, base: nat, i: nat)
    requires i < |os| - 1
    ensures var prefix := os[..|os| - 1];
      && MaskKinds(os, base)[i] == MaskKinds(prefix, base)[i]
      && prefix[i] == os[i]
      && prefix[..i] == os[..i]
  {
  }

  /** The tasks of a prefix of the decisions are a prefix of the tasks of all of them. */
  lemma {:induction false} NewTasksPrefix(os: seq<SegmentClipOutcome>, i: nat)
    requires i <= |os|
    ensures |NewTasks(os[..i])| <= |NewTasks(os)|
    ensures NewTasks(os)[..|NewTasks(os[..i])|] == NewTasks(os[..i])
  {
    if i == |os| {
      assert os[..i] == os;
    } else {
      var prefix := os[..|os| - 1];
      NewTasksPrefix(prefix, i);
      assert prefix[..i] == os[..i];
    }
  }

  /** Every new task gets exactly one consuming edge from the surface, in task order. */
  lemma {:induction false} NewEdgesWireNewTasks(os: seq<SegmentClipOutcome>, port: nat, base: nat)
    ensures |NewEdges(os, port, base)| == |NewTasks(os)|
    ensures forall j :: 0 <= j < |NewTasks(os)| ==> NewEdges(os, port, base)[j] == Dependency(port, base + j)
  {
    if os != [] {
      NewEdgesWireNewTasks(os[..|os| - 1], port, base);
    }
  }

  /** Extending a batch of decisions by one extends its tasks, entries and edges by that decision's. */
  lemma {:induction false} SnocStep(done: seq<SegmentClipOutcome>, o: SegmentClipOutcome, port: nat, base: nat)
    ensures NewTasks(done + [o]) == NewTasks(done) + TaskOf(o)
    ensures MaskKinds(done + [o], base) == MaskKinds(done, base) + [MaskKindFor(o, base + |NewTasks(done)|)]
    ensures NewEdges(done + [o], port, base) == NewEdges(done, port, base) + EdgeOf(o, port, base + |NewTasks(done)|)
  {
    assert (done + [o])[..|done|] == done;
  }

  /** The decision of every segment, each with its own clip chain. */
  function Outcomes(segs: seq<BrushSegment>, chains: seq<Option<ClipChainInstance>>, ctx: ClipContext): (os: seq<SegmentClipOutcome>)
    requires |chains| == |segs|
    ensures |os| == |segs|
    ensures forall k :: 0 <= k < |segs| ==> os[k] == SegmentClipDecision(segs[k], chains[k], ctx)
  {
    seq(|segs|, k requires 0 <= k < |segs| => SegmentClipDecision(segs[k], chains[k], ctx))
  }

  /**
   * `update_brush_segment_clip_task`: records nothing in the graph unless a mask is needed, in
   * which case one task is created and made a dependency of the surface.
   */
  method UpdateBrushSegmentClipTask(
    segment: BrushSegment, chain: Option<ClipChainInstance>, ctx: ClipContext, graph: RenderTaskGraph, port: nat)
    returns (kind: ClipMaskKind)
    modifies graph
    ensures var o := SegmentClipDecision(segment, chain, ctx);
      && kind == MaskKindFor(o, |old(graph.tasks)|)
      && graph.tasks == old(graph.tasks) + TaskOf(o)
      && graph.edges == old(graph.edges) + EdgeOf(o, port, |old(graph.tasks)|)
  {
    var o := SegmentClipDecision(segment, chain, ctx);
    match o {
      case NoMaskNeeded =>
        kind := NoMask;
      case ClippedOut =>
        kind := Clipped;
      case NeedsMask(target) =>
        var id := graph.AddMaskTask(port, target);
        kind := Mask(id);
    }
  }

  /**
   * The clip-mask store and the graph hold, after `masks0`, `tasks0` and `edges0`, exactly the
   * entries, tasks and edges of the decisions `done`.
   */
  ghost predicate Recorded(
    masks: seq<ClipMaskKind>, tasks: seq<RenderTask>, edges: seq<Dependency>,
    masks0: seq<ClipMaskKind>, tasks0: seq<RenderTask>, edges0: seq<Dependency>,
    done: seq<SegmentClipOutcome>, port: nat)
  {
    && masks == masks0 + MaskKinds(done, |tasks0|)
    && tasks == tasks0 + NewTasks(done)
    && edges == edges0 + NewEdges(done, port, |tasks0|)
  }

  /** One turn of the loop of the brush path: records decision `o` after the decisions `done`. */
  method RecordNextSegmentClipTask(
    segment: BrushSegment, chain: Option<ClipChainInstance>, ctx: ClipContext,
    scratch: PrimitiveScratchBuffer, graph: RenderTaskGraph, port: nat,
    ghost done: seq<SegmentClipOutcome>, ghost o: SegmentClipOutcome,
    ghost masks0: seq<ClipMaskKind>, ghost tasks0: seq<RenderTask>, ghost edges0: seq<Dependency>)
    requires o == SegmentClipDecision(segment, chain, ctx)
    requires Recorded(scratch.clipMaskInstances, graph.tasks, graph.edges, masks0, tasks0, edges0, done, port)
    modifies scratch, graph
    ensures Recorded(scratch.clipMaskInstances, graph.tasks, graph.edges, masks0, tasks0, edges0, done + [o], port)
    ensures scratch.segments == old(scratch.segments) && scratch.segmentInstances == old(scratch.segmentInstances)
    ensures scratch.primInfo == old(scratch.primInfo)
  {
    ghost var tasksDone, edgesDone, masksDone := graph.tasks, graph.edges, scratch.clipMaskInstances;
    RecordedSnoc(masksDone, tasksDone, edgesDone, masks0, tasks0, edges0, done, o, port);
    var kind := UpdateBrushSegmentClipTask(segment, chain, ctx, graph, port);
    var _ := scratch.PushClipMask(kind);
  }

  /** Appending the records of decision `o` to the records of `done` gives the records of `done + [o]`. */
  lemma {:induction false} RecordedSnoc(
    masks: seq<ClipMaskKind>, tasks: seq<RenderTask>, edges: seq<Dependency>,
    masks0: seq<ClipMaskKind>, tasks0: seq<RenderTask>, edges0: seq<Dependency>,
    done: seq<SegmentClipOutcome>, o: SegmentClipOutcome, port: nat)
    requires Recorded(masks, tasks, edges, masks0, tasks0, edges0, done, port)
    ensures Recorded(masks + [MaskKindFor(o, |tasks|)], tasks + TaskOf(o), edges + EdgeOf(o, port, |tasks|),
      masks0, tasks0, edges0, done + [o], port)
  {
    var base := |tasks0|;
    SnocStep(done, o, port, base);
    var id := base + |NewTasks(done)|;
    assert |tasks| == id;
    AppendAssoc(masks0, MaskKinds(done, base), [MaskKindFor(o, id)]);
    AppendAssoc(tasks0, NewTasks(done), TaskOf(o));
    AppendAssoc(edges0, NewEdges(done, port, base), EdgeOf(o, port, id));
  }

  /** A batch of decisions keeps every task of the graph consumed. */
  lemma {:induction false} BatchKeepsConsumed(tasks0: seq<RenderTask>, edges0: seq<Dependency>, os: seq<SegmentClipOutcome>, port: nat)
    requires AllConsumed(tasks0, edges0)
    ensures AllConsumed(tasks0 + NewTasks(os), edges0 + NewEdges(os, port, |tasks0|))
  {
    NewEdgesWireNewTasks(os, port, |tasks0|);
    AllConsumedExtend(tasks0, edges0, NewTasks(os), NewEdges(os, port, |tasks0|));
  }

  /**
   * Records the decision of every segment in order, numbering the new tasks after those already
   * in the graph.
   */
  method PushSegmentClipTasks(
    segs: seq<BrushSegment>, chains: seq<Option<ClipChainInstance>>, ctx: ClipContext,
    scratch: PrimitiveScratchBuffer, graph: RenderTaskGraph, port: nat)
    requires |chains| == |segs| && graph.Valid()
    modifies scratch, graph
    ensures graph.Valid()
    ensures var os := Outcomes(segs, chains, ctx);
      && scratch.clipMaskInstances == old(scratch.clipMaskInstances) + MaskKinds(os, |old(graph.tasks)|)
      && graph.tasks == old(graph.tasks) + NewTasks(os)
      && graph.edges == old(graph.edges) + NewEdges(os, port, |old(graph.tasks)|)
    ensures scratch.segments == old(scratch.segments) && scratch.segmentInstances == old(scratch.segmentInstances)
    ensures scratch.primInfo == old(scratch.primInfo)
  {
    ghost var os := Outcomes(segs, chains, ctx);
    ghost var masks0 := scratch.clipMaskInstances;
    ghost var tasks0 := graph.tasks;
    ghost var edges0 := graph.edges;
    BatchKeepsConsumed(tasks0, edges0, os, port);
    assert Recorded(masks0, tasks0, edges0, masks0, tasks0, edges0, os[..0], port);
    for k := 0 to |segs|
      invariant Recorded(scratch.clipMaskInstances, graph.tasks, graph.edges, masks0, tasks0, edges0, os[..k], port)
      invariant scratch.segments == old(scratch.segments) && scratch.segmentInstances == old(scratch.segmentInstances)
      invariant scratch.primInfo == old(scratch.primInfo)
    {
      TakeSnoc(os, k);
      RecordNextSegmentClipTask(segs[k], chains[k], ctx, scratch, graph, port, os[..k], os[k], masks0, tasks0, edges0);
    }
    assert os[..|segs|] == os;
  }

  /** A kind whose segment index the brush path may read: built, unless it is a picture. */
  predicate IndexResolved(k: PrimitiveKind) {
    (k.RectanglePrim? || k.YuvImage? || k.Image?) ==> k.segmentInstanceIndex != Invalid
  }

  /**
   * The segments the brush path masks per segment, or `None` where it declines: kinds without
   * segments, unsegmented primitives (`Unused`, or an `Invalid` picture), and gradients without
   * brush segments. Borders are always handled, even without segments.
   */
  function BrushSegmentsOf(kind: PrimitiveKind, scratch: PrimitiveScratchBuffer): (r: Option<seq<BrushSegment>>)
    reads scratch
    requires scratch.Valid() && SegmentIndexWithin(kind, |scratch.segmentInstances|) && IndexResolved(kind)
    ensures r.Some? && HasSegmentIndex(kind) ==> kind.segmentInstanceIndex.SegmentsAt? && |r.value| >= 2
    ensures r.Some? && r.value == [] ==> kind.NormalBorder? || kind.ImageBorder?
    ensures (kind.NormalBorder? || kind.ImageBorder?) ==> r == Some(kind.brushSegments)
    ensures (kind.TextRun? || kind.Clear? || kind.LineDecoration? || kind.Backdrop?) ==> r.None?
    ensures HasSegmentIndex(kind) ==> (r.Some? <==> kind.segmentInstanceIndex.SegmentsAt?)
    ensures HasSegmentIndex(kind) && kind.segmentInstanceIndex.SegmentsAt? ==>
      r == Some(scratch.SegmentsOf(kind.segmentInstanceIndex.index))
    ensures (kind.LinearGradient? || kind.RadialGradient? || kind.ConicGradient?) ==>
      (r.Some? <==> kind.brushSegments != []) && (r.Some? ==> r.value == kind.brushSegments)
  {
    match kind
    case TextRun => None
    case Clear => None
    case LineDecoration => None
    case Backdrop => None
    case RectanglePrim(idx) => if idx.SegmentsAt? then Some(scratch.SegmentsOf(idx.index)) else None
    case YuvImage(idx) => if idx.SegmentsAt? then Some(scratch.SegmentsOf(idx.index)) else None
    case Image(idx, _) => if idx.SegmentsAt? then Some(scratch.SegmentsOf(idx.index)) else None
    case Picture(idx, _, _) => if idx.SegmentsAt? then Some(scratch.SegmentsOf(idx.index)) else None
    case NormalBorder(segs) => Some(segs)
    case ImageBorder(segs) => Some(segs)
    case LinearGradient(segs) => if segs == [] then None else Some(segs)
    case RadialGradient(segs) => if segs == [] then None else Some(segs)
    case ConicGradient(segs) => if segs == [] then None else Some(segs)
  }

  /**
   * The clip chain each segment is masked with: a single segment reuses the primitive's own
   * chain; with several, each gets a chain built for its rectangle placed at the primitive's
   * origin (the clip-chain builder is not part of this model).
   */
  function SegmentChains(
    segs: seq<BrushSegment>, info: PrimitiveVisibility, primOrigin: Point,
    buildClipChain: Rect -> Option<ClipChainInstance>): (chains: seq<Option<ClipChainInstance>>)
    ensures |chains| == |segs|
    ensures |segs| == 1 ==> chains == [Some(info.clipChain)]
    ensures |segs| != 1 ==> forall k :: 0 <= k < |segs| ==> chains[k] == buildClipChain(Translate(segs[k].localRect, primOrigin))
  {
    if |segs| == 1 then [Some(info.clipChain)]
    else seq(|segs|, k requires 0 <= k < |segs| => buildClipChain(Translate(segs[k].localRect, primOrigin)))
  }

  /**
   * `update_clip_task_for_brush`: when the brush path applies, the primitive's clip-task index
   * is set to where its entries start and one entry per segment is recorded; it reports
   * whether it applied. Nothing changes when it does not, or when there are no segments.
   */
  method UpdateClipTaskForBrush(
    kind: PrimitiveKind, primOrigin: Point, vis: nat, ctx: ClipContext,
    buildClipChain: Rect -> Option<ClipChainInstance>,
    scratch: PrimitiveScratchBuffer, graph: RenderTaskGraph, port: nat)
    returns (handled: bool)
    requires scratch.Valid() && SegmentIndexWithin(kind, |scratch.segmentInstances|) && IndexResolved(kind)
    requires vis < |scratch.primInfo| && graph.Valid()
    modifies scratch, graph
    ensures scratch.Valid() && graph.Valid()
    ensures scratch.segments == old(scratch.segments) && scratch.segmentInstances == old(scratch.segmentInstances)
    ensures AppendedBatch(old(scratch.clipMaskInstances), old(graph.tasks), scratch.clipMaskInstances, graph.tasks, graph.edges, port)
    ensures old(MasksResolve(scratch.clipMaskInstances, |graph.tasks|)) ==> MasksResolve(scratch.clipMaskInstances, |graph.tasks|)
    ensures handled <==> old(BrushSegmentsOf(kind, scratch)).Some?
    ensures !handled || old(BrushSegmentsOf(kind, scratch)) == Some([]) ==>
      && scratch.clipMaskInstances == old(scratch.clipMaskInstances) && scratch.primInfo == old(scratch.primInfo)
      && graph.tasks == old(graph.tasks) && graph.edges == old(graph.edges)
    ensures handled && old(BrushSegmentsOf(kind, scratch)) != Some([]) ==>
      var segs := old(BrushSegmentsOf(kind, scratch)).value;
      var info := old(scratch.primInfo[vis]);
      var os := Outcomes(segs, SegmentChains(segs, info, primOrigin, buildClipChain), ctx);
      && scratch.primInfo == old(scratch.primInfo)[vis := info.(clipTaskIndex := ClipTaskAt(|old(scratch.clipMaskInstances)|))]
      && scratch.clipMaskInstances == old(scratch.clipMaskInstances) + MaskKinds(os, |old(graph.tasks)|)
      && graph.tasks == old(graph.tasks) + NewTasks(os)
      && graph.edges == old(graph.edges) + NewEdges(os, port, |old(graph.tasks)|)
  {
    var found := BrushSegmentsOf(kind, scratch);
    if found.None? {
      NothingAppended(scratch.clipMaskInstances, graph.tasks, graph.edges, port);
      return false;
    }
    var segs := found.value;
    if segs == [] {
      NothingAppended(scratch.clipMaskInstances, graph.tasks, graph.edges, port);
      return true;
    }
    var info := scratch.primInfo[vis];
    scratch.primInfo := scratch.primInfo[vis := info.(clipTaskIndex := ClipTaskAt(|scratch.clipMaskInstances|))];
    var chains: seq<Option<ClipChainInstance>>;
    if |segs| == 1 {
      chains := [Some(info.clipChain)];
    } else {
      chains := [];
      for k := 0 to |segs|
        invariant |chains| == k
        invariant forall j :: 0 <= j < k ==> chains[j] == buildClipChain(Translate(segs[j].localRect, primOrigin))
      {
        chains := chains + [buildClipChain(Translate(segs[k].localRect, primOrigin))];
      }
    }
    assert chains == SegmentChains(segs, info, primOrigin, buildClipChain);
    BatchIsAppended(scratch.clipMaskInstances, graph.tasks, graph.edges, Outcomes(segs, chains, ctx), port);
    PushSegmentClipTasks(segs, chains, ctx, scratch, graph, port);
    return true;
  }

  /** Every mask entry names a task that exists in the graph. */
  predicate MasksResolve(entries: seq<ClipMaskKind>, taskCount: nat) {
    forall i :: 0 <= i < |entries| ==> entries[i].Mask? ==> entries[i].taskId < taskCount
  }

  /** Recording the decisions of a batch of segments keeps every mask entry resolvable. */
  lemma {:induction false} MaskKindsResolve(entries: seq<ClipMaskKind>, base: nat, os: seq<SegmentClipOutcome>)
    requires MasksResolve(entries, base)
    ensures MasksResolve(entries + MaskKinds(os, base), base + |NewTasks(os)|)
  {
    MaskKindsReferToNewTasks(os, base);
    var all := entries + MaskKinds(os, base);
    forall i | 0 <= i < |all| && all[i].Mask?
      ensures all[i].taskId < base + |NewTasks(os)|
    {
      if i >= |entries| {
        assert all[i] == MaskKinds(os, base)[i - |entries|];
      } else {
        assert all[i] == entries[i];
      }
    }
  }

  /**
   * What recording clip masks may do to the clip-mask store and the graph: the entries and
   * tasks already there are kept, every new mask entry names a new task, and every new task is
   * consumed by the surface `port`.
   */
  ghost predicate AppendedBatch(
    entries0: seq<ClipMaskKind>, tasks0: seq<RenderTask>,
    entries: seq<ClipMaskKind>, tasks: seq<RenderTask>, edges: seq<Dependency>, port: nat)
  {
    && |entries0| <= |entries| && entries[..|entries0|] == entries0
    && |tasks0| <= |tasks| && tasks[..|tasks0|] == tasks0
    && (forall i :: |entries0| <= i < |entries| && entries[i].Mask? ==> |tasks0| <= entries[i].taskId < |tasks|)
    && (forall t :: |tasks0| <= t < |tasks| ==> Dependency(port, t) in edges)
  }

  /** Recording nothing is such an append. */
  lemma {:induction false} NothingAppended(entries: seq<ClipMaskKind>, tasks: seq<RenderTask>, edges: seq<Dependency>, port: nat)
    ensures AppendedBatch(entries, tasks, entries, tasks, edges, port)
  {
    assert entries[..|entries|] == entries;
    assert tasks[..|tasks|] == tasks;
  }

  /** Recording a batch of decisions, numbered after the existing tasks, is such an append. */
  lemma {:induction false} BatchIsAppended(
    entries0: seq<ClipMaskKind>, tasks0: seq<RenderTask>, edges0: seq<Dependency>,
    os: seq<SegmentClipOutcome>, port: nat)
    ensures var base := |tasks0|;
      AppendedBatch(entries0, tasks0,
        entries0 + MaskKinds(os, base), tasks0 + NewTasks(os), edges0 + NewEdges(os, port, base), port)
    ensures MasksResolve(entries0, |tasks0|) ==>
      MasksResolve(entries0 + MaskKinds(os, |tasks0|), |tasks0 + NewTasks(os)|)
  {
    var base := |tasks0|;
    var entries := entries0 + MaskKinds(os, base);
    var tasks := tasks0 + NewTasks(os);
    var edges := edges0 + NewEdges(os, port, base);
    MaskKindsReferToNewTasks(os, base);
    NewEdgesWireNewTasks(os, port, base);
    assert entries[..|entries0|] == entries0;
    assert tasks[..|tasks0|] == tasks0;
    forall i | |entries0| <= i < |entries| && entries[i].Mask?
      ensures |tasks0| <= entries[i].taskId < |tasks|
    {
      assert entries[i] == MaskKinds(os, base)[i - |entries0|];
    }
    forall t | |tasks0| <= t < |tasks|
      ensures Dependency(port, t) in edges
    {
      assert edges[|edges0| + (t - |tasks0|)] == Dependency(port, t);
    }
    if MasksResolve(entries0, base) {
      MaskKindsResolve(entries0, base, os);
    }
  }

  /**
   * The fallback of `update_clip_task` for a primitive the brush path declined: when its clip
   * chain needs a mask and its clipped device rectangle exists, one clip-mask task for the
   * whole primitive is made, consumed by the surface, and recorded as the primitive's only
   * entry; otherwise nothing changes.
   */
  method PushPrimitiveClipTask(
    info: PrimitiveVisibility, v: nat, unclipped: Rect, m: Mappers, devicePixelScale: real,
    scratch: PrimitiveScratchBuffer, graph: RenderTaskGraph, port: nat)
    requires v < |scratch.primInfo|
    modifies scratch, graph
    ensures scratch.segments == old(scratch.segments) && scratch.segmentInstances == old(scratch.segmentInstances)
    ensures old(graph.Valid()) ==> graph.Valid()
    ensures AppendedBatch(old(scratch.clipMaskInstances), old(graph.tasks), scratch.clipMaskInstances, graph.tasks, graph.edges, port)
    ensures old(MasksResolve(scratch.clipMaskInstances, |graph.tasks|)) ==> MasksResolve(scratch.clipMaskInstances, |graph.tasks|)
    ensures var deviceRect := ClippedDeviceRect(unclipped, m, info.clippedWorldRect, devicePixelScale);
      if info.clipChain.needsMask && deviceRect.Some? then
        var target := AdjustMaskScaleForMaxSize(deviceRect.value, devicePixelScale);
        var id := |old(graph.tasks)|;
        && scratch.clipMaskInstances == old(scratch.clipMaskInstances) + [Mask(id)]
        && graph.tasks == old(graph.tasks) + [MaskTask(target.rect, target.scale)]
        && graph.edges == old(graph.edges) + [Dependency(port, id)]
        && scratch.primInfo == old(scratch.primInfo)[v := info.(clipTaskIndex := ClipTaskAt(|old(scratch.clipMaskInstances)|))]
      else
        && scratch.clipMaskInstances == old(scratch.clipMaskInstances) && scratch.primInfo == old(scratch.primInfo)
        && graph.tasks == old(graph.tasks) && graph.edges == old(graph.edges)
  {
    if info.clipChain.needsMask {
      var deviceRect := ClippedDeviceRect(unclipped, m, info.clippedWorldRect, devicePixelScale);
      if deviceRect.Some? {
        var target := AdjustMaskScaleForMaxSize(deviceRect.value, devicePixelScale);
        ghost var o := NeedsMask(target);
        SnocStep([], o, port, |graph.tasks|);
        assert [] + [o] == [o];
        BatchIsAppended(scratch.clipMaskInstances, graph.tasks, graph.edges, [o], port);
        var id := graph.AddMaskTask(port, target);
        var index := scratch.PushClipMask(Mask(id));
        scratch.primInfo := scratch.primInfo[v := info.(clipTaskIndex := ClipTaskAt(index))];
        return;
      }
    }
    NothingAppended(scratch.clipMaskInstances, graph.tasks, graph.edges, port);
  }

  /**
   * `update_clip_task`: for a primitive with an unclipped device rectangle, builds its segments
   * if needed, then tries the brush path; otherwise a primitive whose chain needs a mask and
   * whose clipped device rectangle is non-empty gets one clip-mask task for the whole
   * primitive. Every mask entry it records names a task it created, and every task it creates
   * is consumed by the surface.
   */
  method UpdateClipTask(
    inst: PrimitiveInstance, primOrigin: Point, m: Mappers, devicePixelScale: real,
    buildClipChain: Rect -> Option<ClipChainInstance>,
    builder: SegmentBuilder, build: BuildFn,
    scratch: PrimitiveScratchBuffer, graph: RenderTaskGraph, port: nat)
    returns (newKind: PrimitiveKind)
    requires inst.visibilityInfo.VisibilityAt? && inst.visibilityInfo.index < |scratch.primInfo|
    requires scratch.Valid() && SegmentIndexWithin(inst.kind, |scratch.segmentInstances|)
    requires graph.Valid() && MasksResolve(scratch.clipMaskInstances, |graph.tasks|)
    modifies scratch, graph, builder
    ensures scratch.Valid() && SegmentIndexWithin(newKind, |scratch.segmentInstances|)
    ensures graph.Valid() && MasksResolve(scratch.clipMaskInstances, |graph.tasks|)
    ensures |scratch.primInfo| == |old(scratch.primInfo)|
    ensures forall j :: 0 <= j < |scratch.primInfo| && j != inst.visibilityInfo.index ==> scratch.primInfo[j] == old(scratch.primInfo[j])
    ensures old(UnclippedDeviceRect(scratch.primInfo[inst.visibilityInfo.index].clipChain.picClipRect, m.picToRaster, devicePixelScale)).None? ==>
      && newKind == inst.kind
      && scratch.segments == old(scratch.segments) && scratch.segmentInstances == old(scratch.segmentInstances)
      && scratch.clipMaskInstances == old(scratch.clipMaskInstances) && scratch.primInfo == old(scratch.primInfo)
      && graph.tasks == old(graph.tasks) && graph.edges == old(graph.edges)
    ensures AppendedBatch(old(scratch.clipMaskInstances), old(graph.tasks), scratch.clipMaskInstances, graph.tasks, graph.edges, port)
    ensures var info := old(scratch.primInfo[inst.visibilityInfo.index]);
      var built := BuiltSegments(inst.localPrimRect, inst.localClipRect, info.clipChain.clips, build);
      var grows := PendingIndex(inst.kind) == Some(Invalid) && |built| > 1;
      UnclippedDeviceRect(info.clipChain.picClipRect, m.picToRaster, devicePixelScale).Some? ==>
        && newKind == SegmentedKind(inst.kind, built, |old(scratch.segmentInstances)|)
        && IndexResolved(newKind)
        && scratch.segments == old(scratch.segments) + (if grows then built else [])
        && scratch.segmentInstances == old(scratch.segmentInstances)
             + (if grows then [SegmentedInstance(Range(|old(scratch.segments)|, |scratch.segments|))] else [])
    ensures var v := inst.visibilityInfo.index;
      var info := old(scratch.primInfo[v]);
      var unclipped := UnclippedDeviceRect(info.clipChain.picClipRect, m.picToRaster, devicePixelScale);
      unclipped.Some? && IndexResolved(newKind) ==>
        var found := BrushSegmentsOf(newKind, scratch);
        var ctx := ClipContext(info.clippedWorldRect, m, unclipped.value, devicePixelScale);
        var deviceRect := ClippedDeviceRect(unclipped.value, m, info.clippedWorldRect, devicePixelScale);
        if found == Some([]) || (found.None? && !(info.clipChain.needsMask && deviceRect.Some?)) then
          && scratch.clipMaskInstances == old(scratch.clipMaskInstances) && scratch.primInfo == old(scratch.primInfo)
          && graph.tasks == old(graph.tasks) && graph.edges == old(graph.edges)
        else if found.Some? then
          var segs := found.value;
          var os := Outcomes(segs, SegmentChains(segs, info, primOrigin, buildClipChain), ctx);
          && scratch.primInfo == old(scratch.primInfo)[v := info.(clipTaskIndex := ClipTaskAt(|old(scratch.clipMaskInstances)|))]
          && scratch.clipMaskInstances == old(scratch.clipMaskInstances) + MaskKinds(os, |old(graph.tasks)|)
          && graph.tasks == old(graph.tasks) + NewTasks(os)
          && graph.edges == old(graph.edges) + NewEdges(os, port, |old(graph.tasks)|)
        else
          var target := AdjustMaskScaleForMaxSize(deviceRect.value, devicePixelScale);
          var id := |old(graph.tasks)|;
          && scratch.clipMaskInstances == old(scratch.clipMaskInstances) + [Mask(id)]
          && graph.tasks == old(graph.tasks) + [MaskTask(target.rect, target.scale)]
          && graph.edges == old(graph.edges) + [Dependency(port, id)]
          && scratch.primInfo == old(scratch.primInfo)[v := info.(clipTaskIndex := ClipTaskAt(|old(scratch.clipMaskInstances)|))]
  {
    var v := inst.visibilityInfo.index;
    var info := scratch.primInfo[v];
    var unclipped := UnclippedDeviceRect(info.clipChain.picClipRect, m.picToRaster, devicePixelScale);
    if unclipped.None? {
      NothingAppended(scratch.clipMaskInstances, graph.tasks, graph.edges, port);
      return inst.kind;
    }
    newKind := BuildSegmentsIfNeeded(inst.kind, inst.localPrimRect, inst.localClipRect, info.clipChain, scratch, builder, build);
    var ctx := ClipContext(info.clippedWorldRect, m, unclipped.value, devicePixelScale);
    var handled := UpdateClipTaskForBrush(newKind, primOrigin, v, ctx, buildClipChain, scratch, graph, port);
    if !handled {
      PushPrimitiveClipTask(info, v, unclipped.value, m, devicePixelScale, scratch, graph, port);
    }
  }
}
