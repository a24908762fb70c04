/**
 * Cached linear gradients: `emit_segments` turns each visible stop run into a render-task
 * cache request and a local rectangle on the primitive, the clamp path calls it once over
 * the whole primitive, and the repeat path marches integer-aligned copies of the gradient
 * across the primitive, calling it once per copy.
 */
module GradientCache {
  import opened Common
  import opened Geometry
  import opened GradientStops
  import opened GradientRuns

  datatype LineOrientation = Horizontal | Vertical

  datatype ExtendMode = Clamp | Repeat

  /** The part of a render-task cache key that describes one cached gradient segment. */
  datatype GradientCacheKey = GradientCacheKey(
    orientation: LineOrientation,
    startStopPoint: real,
    endStopPoint: real,
    stops: seq<GradientStopKey>)

  datatype RenderTaskCacheKey = RenderTaskCacheKey(size: IntSize, gradient: GradientCacheKey)

  datatype CachedGradientSegment = CachedGradientSegment(handle: nat, localRect: Rect)

  /**
   * The resource cache's `request_render_task`, seen from here: a handle for a cache key and
   * the opacity flag. Creating the task on a miss is the cache's business.
   */
  type RequestTask = (RenderTaskCacheKey, bool) -> nat

  /** The arguments of one `emit_segments` call other than the stops. */
  datatype EmitParams = EmitParams(
    startOffset: real,
    endOffset: real,
    gradientOffsetBase: real,
    primStartOffset: real,
    primEndOffset: real,
    primRect: Rect,
    taskSize: IntSize,
    isOpaque: bool,
    orientation: LineOrientation)

  /** The stops of a run, padded with empty keys to `GradientFpStops` slots. */
  function SegmentStops(stops: seq<GradientStopKey>, r: Run): seq<GradientStopKey>
    requires WellFormedRun(stops, r)
  {
    seq(GradientFpStops, i requires 0 <= i < GradientFpStops =>
      if i < r.last - r.first + 1 then stops[r.first + i] else EmptyKey)
  }

  function SegmentStartPoint(stops: seq<GradientStopKey>, p: EmitParams, r: Run): real
    requires WellFormedRun(stops, r)
  {
    Max(p.startOffset, stops[r.first].offset)
  }

  function SegmentEndPoint(stops: seq<GradientStopKey>, p: EmitParams, r: Run): real
    requires WellFormedRun(stops, r)
  {
    Min(p.endOffset, stops[r.last].offset)
  }

  function RunCacheKey(stops: seq<GradientStopKey>, p: EmitParams, r: Run): RenderTaskCacheKey
    requires WellFormedRun(stops, r)
  {
    RenderTaskCacheKey(p.taskSize,
      GradientCacheKey(p.orientation, SegmentStartPoint(stops, p, r), SegmentEndPoint(stops, p, r), SegmentStops(stops, r)))
  }

  /**
   * Where gradient offset `t` (counted from the start of the whole gradient, so including the
   * offset base of a repeated copy) falls along the primitive's axis: `primStartOffset` maps
   * to the primitive's leading edge and `primEndOffset` to its trailing edge.
   */
  function AxisPosition(p: EmitParams, t: real): real
    requires p.primStartOffset != p.primEndOffset
  {
    var inv := 1.0 / (p.primEndOffset - p.primStartOffset);
    if p.orientation == Horizontal then p.primRect.origin.x + (t - p.primStartOffset) * inv * p.primRect.size.width
    else p.primRect.origin.y + (t - p.primStartOffset) * inv * p.primRect.size.height
  }

  /** The primitive's rectangle shifted and shrunk along the gradient axis to the range `[ssp, sep]`. */
  function SegmentLocalRect(p: EmitParams, ssp: real, sep: real): Rect
    requires p.primStartOffset != p.primEndOffset
  {
    var inv := 1.0 / (p.primEndOffset - p.primStartOffset);
    var o := p.primRect.origin;
    var s := p.primRect.size;
    if p.orientation == Horizontal then
      Rect(Point(o.x + (ssp + p.gradientOffsetBase - p.primStartOffset) * inv * s.width, o.y),
           Size(s.width * ((sep - ssp) * inv), s.height))
    else
      Rect(Point(o.x, o.y + (ssp + p.gradientOffsetBase - p.primStartOffset) * inv * s.height),
           Size(s.width, s.height * ((sep - ssp) * inv)))
  }

  /** What one run contributes to `cache_segments`: nothing, or one segment of positive area. */
  function RunSegments(stops: seq<GradientStopKey>, p: EmitParams, r: Run, requestTask: RequestTask): (segs: seq<CachedGradientSegment>)
    requires WellFormedRun(stops, r) && p.primStartOffset != p.primEndOffset
    ensures |segs| <= 1
    ensures stops[r.last].offset < p.startOffset ==> segs == []
    ensures forall g :: g in segs ==> Area(g.localRect.size) > 0.0
  {
    if stops[r.last].offset < p.startOffset then []
    else
      var rect := SegmentLocalRect(p, SegmentStartPoint(stops, p, r), SegmentEndPoint(stops, p, r));
      if Area(rect.size) > 0.0 then [CachedGradientSegment(requestTask(RunCacheKey(stops, p, r), p.isOpaque), rect)]
      else []
  }

  /** The segments `emit_segments` appends, visiting the runs from `first` as `VisitedRuns` does. */
  function EmittedFrom(stops: seq<GradientStopKey>, p: EmitParams, first: nat, requestTask: RequestTask): seq<CachedGradientSegment>
    requires p.primStartOffset != p.primEndOffset
    decreases |stops| - first
  {
    if first + 1 >= |stops| || stops[first].offset > p.endOffset then []
    else
      var r := RunFrom(stops, first);
      RunShape(stops, first);
      RunSegments(stops, p, r, requestTask) + EmittedFrom(stops, p, NextFirst(r), requestTask)
  }

  /** One turn of the outer loop of `emit_segments`. */
  lemma {:induction false} EmittedFromStep(stops: seq<GradientStopKey>, p: EmitParams, first: nat, requestTask: RequestTask)
    requires first < |stops| - 1 && stops[first].offset <= p.endOffset
    requires p.primStartOffset != p.primEndOffset
    ensures var r := RunFrom(stops, first);
      && WellFormedRun(stops, r) && first < NextFirst(r) <= |stops| - 1
      && EmittedFrom(stops, p, first, requestTask)
         == RunSegments(stops, p, r, requestTask) + EmittedFrom(stops, p, NextFirst(r), requestTask)
  {
    RunShape(stops, first);
  }

  /** One segment per visited run at most. */
  lemma {:induction false} EmittedAtMostOnePerRun(stops: seq<GradientStopKey>, p: EmitParams, first: nat, requestTask: RequestTask)
    requires p.primStartOffset != p.primEndOffset
    ensures |EmittedFrom(stops, p, first, requestTask)| <= |VisitedRuns(stops, first, p.endOffset)|
    decreases |stops| - first
  {
    if first + 1 >= |stops| || stops[first].offset > p.endOffset {
    } else {
      RunShape(stops, first);
      EmittedAtMostOnePerRun(stops, p, NextFirst(RunFrom(stops, first)), requestTask);
    }
  }

  /**
   * A segment's rectangle is the image of the gradient range `[ssp, sep]` of this copy under
   * `AxisPosition`; across the axis it keeps the primitive's extent. The offset base enters
   * the origin only, since it cancels out of the length.
   */
  lemma {:induction false} SegmentRectIsAxisImage(p: EmitParams, ssp: real, sep: real)
    requires p.primStartOffset != p.primEndOffset
    ensures var rect := SegmentLocalRect(p, ssp, sep);
      if p.orientation == Horizontal then
        && rect.origin.x == AxisPosition(p, ssp + p.gradientOffsetBase)
        && MaxX(rect) == AxisPosition(p, sep + p.gradientOffsetBase)
        && rect.origin.y == p.primRect.origin.y && rect.size.height == p.primRect.size.height
      else
        && rect.origin.y == AxisPosition(p, ssp + p.gradientOffsetBase)
        && MaxY(rect) == AxisPosition(p, sep + p.gradientOffsetBase)
        && rect.origin.x == p.primRect.origin.x && rect.size.width == p.primRect.size.width
  {
    var inv := 1.0 / (p.primEndOffset - p.primStartOffset);
    var b := p.gradientOffsetBase;
    var pso := p.primStartOffset;
    var len := if p.orientation == Horizontal then p.primRect.size.width else p.primRect.size.height;
    var a := inv * len;
    assert (ssp + b - pso) * inv * len == (ssp + b - pso) * a;
    assert len * ((sep - ssp) * inv) == (sep - ssp) * a;
    assert (sep + b - pso) * inv * len == (sep + b - pso) * a;
    assert (ssp + b - pso) * a + (sep - ssp) * a == (sep + b - pso) * a;
  }

  /** Offsets between `primStartOffset` and `primEndOffset` land on the primitive. */
  lemma {:induction false} AxisPositionWithin(p: EmitParams, t: real)
    requires p.primStartOffset < p.primEndOffset
    requires p.primRect.size.width >= 0.0 && p.primRect.size.height >= 0.0
    requires p.primStartOffset <= t <= p.primEndOffset
    ensures p.orientation == Horizontal ==> p.primRect.origin.x <= AxisPosition(p, t) <= MaxX(p.primRect)
    ensures p.orientation == Vertical ==> p.primRect.origin.y <= AxisPosition(p, t) <= MaxY(p.primRect)
  {
    var len := if p.orientation == Horizontal then p.primRect.size.width else p.primRect.size.height;
    FractionOfLength(t - p.primStartOffset, p.primEndOffset - p.primStartOffset, len);
  }

  /**
   * When the window `[startOffset, endOffset]` shifted by the offset base lies inside the
   * primitive's offset range, every rectangle `emit_segments` appends lies inside the
   * primitive, and none is empty.
   */
  lemma {:induction false} EmittedWithinPrimitive(stops: seq<GradientStopKey>, p: EmitParams, first: nat, requestTask: RequestTask)
    requires p.primStartOffset < p.primEndOffset
    requires p.primRect.size.width >= 0.0 && p.primRect.size.height >= 0.0
    requires p.startOffset <= p.endOffset
    requires p.primStartOffset <= p.startOffset + p.gradientOffsetBase
    requires p.endOffset + p.gradientOffsetBase <= p.primEndOffset
    ensures forall g :: g in EmittedFrom(stops, p, first, requestTask) ==>
      Contains(p.primRect, g.localRect) && Area(g.localRect.size) > 0.0
    decreases |stops| - first
  {
    if first + 1 >= |stops| || stops[first].offset > p.endOffset {
    } else {
      var r := RunFrom(stops, first);
      RunShape(stops, first);
      EmittedWithinPrimitive(stops, p, NextFirst(r), requestTask);
      if stops[r.last].offset >= p.startOffset {
        RunSegmentWithinPrimitive(stops, p, r, requestTask);
      }
    }
  }

  /** A visible run's segment lies inside the primitive. */
  lemma {:induction false} RunSegmentWithinPrimitive(stops: seq<GradientStopKey>, p: EmitParams, r: Run, requestTask: RequestTask)
    requires WellFormedRun(stops, r)
    requires p.primStartOffset < p.primEndOffset
    requires p.primRect.size.width >= 0.0 && p.primRect.size.height >= 0.0
    requires p.startOffset <= p.endOffset
    requires p.primStartOffset <= p.startOffset + p.gradientOffsetBase
    requires p.endOffset + p.gradientOffsetBase <= p.primEndOffset
    requires stops[r.first].offset <= p.endOffset && stops[r.last].offset >= p.startOffset
    ensures forall g :: g in RunSegments(stops, p, r, requestTask) ==> Contains(p.primRect, g.localRect)
  {
    var ssp := SegmentStartPoint(stops, p, r);
    var sep := SegmentEndPoint(stops, p, r);
    SegmentRectIsAxisImage(p, ssp, sep);
    AxisPositionWithin(p, ssp + p.gradientOffsetBase);
    AxisPositionWithin(p, sep + p.gradientOffsetBase);
  }

  lemma {:induction false} MulPositive(a: real, b: real)
    requires a > 0.0
    ensures b > 0.0 <==> a * b > 0.0
  {
    if b > 0.0 {
      assert a * b > 0.0;
    } else {
      assert a * b <= a * 0.0;
    }
  }

  /**
   * On a primitive of positive size with a forward offset range, a run's segment is pushed
   * exactly when its clipped range is non-empty; its key then starts no earlier than both
   * the window and the run's first stop and ends no later than both the window and the run's
   * last stop.
   */
  lemma {:induction false} RunSegmentPushedIff(stops: seq<GradientStopKey>, p: EmitParams, r: Run, requestTask: RequestTask)
    requires WellFormedRun(stops, r)
    requires p.primStartOffset < p.primEndOffset
    requires p.primRect.size.width > 0.0 && p.primRect.size.height > 0.0
    requires stops[r.last].offset >= p.startOffset
    ensures var ssp := SegmentStartPoint(stops, p, r);
      var sep := SegmentEndPoint(stops, p, r);
      && (|RunSegments(stops, p, r, requestTask)| == 1 <==> ssp < sep)
      && p.startOffset <= ssp && stops[r.first].offset <= ssp
      && sep <= p.endOffset && sep <= stops[r.last].offset
  {
    SegmentAreaPositiveIff(p, SegmentStartPoint(stops, p, r), SegmentEndPoint(stops, p, r));
  }

  /** On a primitive of positive size, a segment's rectangle has positive area exactly when its range is non-empty. */
  lemma {:induction false} SegmentAreaPositiveIff(p: EmitParams, ssp: real, sep: real)
    requires p.primStartOffset < p.primEndOffset
    requires p.primRect.size.width > 0.0 && p.primRect.size.height > 0.0
    ensures Area(SegmentLocalRect(p, ssp, sep).size) > 0.0 <==> ssp < sep
  {
    var inv := 1.0 / (p.primEndOffset - p.primStartOffset);
    var k := (sep - ssp) * inv;
    var w := p.primRect.size.width;
    var h := p.primRect.size.height;
    var size := SegmentLocalRect(p, ssp, sep).size;
    MulPositive(inv, sep - ssp);
    assert (sep - ssp) * inv == inv * (sep - ssp);
    if p.orientation == Horizontal {
      assert size == Size(w * k, h);
      MulPositive(w, k);
      MulPositive(h, w * k);
      assert Area(size) == (w * k) * h == h * (w * k);
    } else {
      assert size == Size(w, h * k);
      MulPositive(h, k);
      MulPositive(w, h * k);
    }
  }

  /**
   * The inner loop of `emit_segments`: accumulate stops from `firstStop` until the run holds
   * `GradientFpStops` of them, the list ends, or the next stop is a hard stop.
   */
  method ScanStops(stops: seq<GradientStopKey>, firstStop: nat) returns (lastStop: nat, hardStop: bool)
    requires firstStop < |stops|
    ensures Run(firstStop, lastStop, hardStop) == RunFrom(stops, firstStop)
  {
    lastStop := firstStop;
    hardStop := false;
    while lastStop < |stops| - 1 && lastStop - firstStop + 1 < GradientFpStops
      invariant firstStop <= lastStop < |stops|
      invariant ScanRun(stops, firstStop, lastStop) == RunFrom(stops, firstStop)
      decreases |stops| - lastStop
    {
      if stops[lastStop + 1].offset == stops[lastStop].offset {
        hardStop := true;
        break;
      }
      lastStop := lastStop + 1;
    }
  }

  /** The LinearGradient primitive's per-frame cache state. */
  class LinearGradientPrimitive {
    var cacheSegments: seq<CachedGradientSegment>

    constructor ()
      ensures cacheSegments == []
    {
      cacheSegments := [];
    }

    /**
     * `emit_segments`: walks the runs of `stops` from the first stop, appending a cached
     * segment for every visible run whose rectangle has positive area, and stops early at the
     * first run that starts past `endOffset`.
     */
    method EmitSegments(p: EmitParams, stops: seq<GradientStopKey>, requestTask: RequestTask)
      requires |stops| >= 1
      requires p.primStartOffset != p.primEndOffset
      modifies this
      ensures cacheSegments == old(cacheSegments) + EmittedFrom(stops, p, 0, requestTask)
    {
      var firstStop: nat := 0;
      while firstStop < |stops| - 1
        invariant firstStop <= |stops| - 1
        invariant cacheSegments + EmittedFrom(stops, p, firstStop, requestTask)
          == old(cacheSegments) + EmittedFrom(stops, p, 0, requestTask)
        decreases |stops| - firstStop
      {
        if stops[firstStop].offset > p.endOffset {
          assert EmittedFrom(stops, p, firstStop, requestTask) == [];
          return;
        }

        firstStop := EmitRun(p, stops, firstStop, requestTask);
      }
      assert EmittedFrom(stops, p, firstStop, requestTask) == [];
    }

    /**
     * One turn of the outer loop of `emit_segments`: scans the run starting at `firstStop`,
     * pushes its segment when the run reaches into the window, and returns the first stop of
     * the next run.
     */
    method EmitRun(p: EmitParams, stops: seq<GradientStopKey>, firstStop: nat, requestTask: RequestTask)
      returns (next: nat)
      requires firstStop < |stops| - 1 && stops[firstStop].offset <= p.endOffset
      requires p.primStartOffset != p.primEndOffset
      modifies this
      ensures firstStop < next <= |stops| - 1
      ensures cacheSegments + EmittedFrom(stops, p, next, requestTask)
        == old(cacheSegments) + EmittedFrom(stops, p, firstStop, requestTask)
    {
      var lastStop, hardStop := ScanStops(stops, firstStop);
      var run := Run(firstStop, lastStop, hardStop);
      EmittedFromStep(stops, p, firstStop, requestTask);
      next := if hardStop then lastStop + 1 else lastStop;
      ghost var rest := EmittedFrom(stops, p, next, requestTask);

      // if the run's last stop is before the window, it is not visible
      if stops[lastStop].offset < p.startOffset {
        return;
      }

      PushRunSegment(p, stops, run, requestTask);
      AppendAssoc(old(cacheSegments), RunSegments(stops, p, run, requestTask), rest);
    }

    /**
     * One visible run of `emit_segments`: the cache key from the run's clipped offsets and its
     * padded stops, the primitive rectangle shifted and shrunk to the run's range, and a push
     * of the segment when that rectangle has positive area.
     */
    method PushRunSegment(p: EmitParams, stops: seq<GradientStopKey>, run: Run, requestTask: RequestTask)
      requires WellFormedRun(stops, run) && p.primStartOffset != p.primEndOffset
      requires stops[run.last].offset >= p.startOffset
      modifies this
      ensures cacheSegments == old(cacheSegments) + RunSegments(stops, p, run, requestTask)
    {
      var segmentStartPoint := Max(p.startOffset, stops[run.first].offset);
      var segmentEndPoint := Min(p.endOffset, stops[run.last].offset);

      var segmentStops := seq(GradientFpStops, _ => EmptyKey);
      for i := 0 to run.last - run.first + 1
        invariant |segmentStops| == GradientFpStops
        invariant forall j :: 0 <= j < GradientFpStops ==>
          segmentStops[j] == if j < i then stops[run.first + j] else EmptyKey
      {
        segmentStops := segmentStops[i := stops[run.first + i]];
      }
      assert segmentStops == SegmentStops(stops, run);

      var cacheKey := GradientCacheKey(p.orientation, segmentStartPoint, segmentEndPoint, segmentStops);

      // the primitive rectangle shifted and shrunk along the gradient axis to the run's range
      var localRect := SegmentLocalRect(p, segmentStartPoint, segmentEndPoint);

      // a hard stop exactly on an edge can leave an empty rectangle
      if Area(localRect.size) > 0.0 {
        var handle := requestTask(RenderTaskCacheKey(p.taskSize, cacheKey), p.isOpaque);
        cacheSegments := cacheSegments + [CachedGradientSegment(handle, localRect)];
      }
    }

    /**
     * The repeat path: one `emit_segments` call per copy of the gradient that the primitive
     * crosses, each drawing the window `RepeatWindows` gives it.
     */
    method MarchRepeatWindows(p: EmitParams, stops: seq<GradientStopKey>, requestTask: RequestTask)
      requires |stops| >= 1
      requires p.primStartOffset != p.primEndOffset
      modifies this
      ensures cacheSegments == old(cacheSegments)
        + RepeatSegments(stops, p, RepeatWindows(p.primStartOffset, p.primEndOffset), requestTask)
    {
      var segmentStartPoint := p.primStartOffset;
      while segmentStartPoint < p.primEndOffset
        invariant cacheSegments + RepeatSegments(stops, p, RepeatWindows(segmentStartPoint, p.primEndOffset), requestTask)
          == old(cacheSegments) + RepeatSegments(stops, p, RepeatWindows(p.primStartOffset, p.primEndOffset), requestTask)
        decreases WindowsLeft(segmentStartPoint, p.primEndOffset)
      {
        segmentStartPoint := EmitWindow(p, stops, requestTask, segmentStartPoint);
      }
    }

    /** One turn of the repeat march: draws the copy of the gradient under `point` and returns where the next one starts. */
    method EmitWindow(p: EmitParams, stops: seq<GradientStopKey>, requestTask: RequestTask, point: real)
      returns (next: real)
      requires |stops| >= 1
      requires p.primStartOffset != p.primEndOffset && point < p.primEndOffset
      modifies this
      ensures WindowsLeft(next, p.primEndOffset) < WindowsLeft(point, p.primEndOffset)
      ensures cacheSegments + RepeatSegments(stops, p, RepeatWindows(next, p.primEndOffset), requestTask)
        == old(cacheSegments) + RepeatSegments(stops, p, RepeatWindows(point, p.primEndOffset), requestTask)
    {
      var gradientOffsetBase := point.Floor as real;
      var repeatStart := point - gradientOffsetBase;
      var repeatEnd := Min(gradientOffsetBase + 1.0, p.primEndOffset) - gradientOffsetBase;
      var w := RepeatWindow(gradientOffsetBase, repeatStart, repeatEnd);
      next := repeatEnd + gradientOffsetBase;
      RepeatWindowsUnfold(point, p.primEndOffset, w, next, stops, p, requestTask);
      ghost var rest := RepeatSegments(stops, p, RepeatWindows(next, p.primEndOffset), requestTask);

      EmitSegments(WindowParams(p, w), stops, requestTask);
      AppendAssoc(old(cacheSegments), EmittedFrom(stops, WindowParams(p, w), 0, requestTask), rest);
    }

    /**
     * The cached branch of the LinearGradient arm of `prepare_interned_prim_for_render`:
     * builds the stop keys, clears `cache_segments`, and emits the gradient either once with
     * boundary stops (clamping, or a primitive inside one copy of the gradient) or once per
     * repeated copy.
     */
    method PrepareCachedSegments(g: CachedGradient, requestTask: RequestTask)
      requires ValidCachedGradient(g)
      modifies this
      ensures cacheSegments == LinearGradientSegments(g, requestTask)
    {
      var cov := CoveringOffsets(g);
      var stops := BuildStopKeys(g.stops, g.reverseStops);

      cacheSegments := [];

      var p := EmitParams(cov.primStartOffset, cov.primEndOffset, 0.0, cov.primStartOffset, cov.primEndOffset,
                          g.primRect, cov.taskSize, g.isOpaque, cov.orientation);
      if g.extendMode == Clamp || (cov.primStartOffset >= 0.0 && cov.primEndOffset <= 1.0) {
        stops := WithClampBoundaryStops(stops, cov.primStartOffset, cov.primEndOffset);
        EmitSegments(p, stops, requestTask);
      } else {
        MarchRepeatWindows(p, stops, requestTask);
      }
    }
  }

  /** One copy of a repeated gradient: the integer offset base and the part of `[0, 1]` drawn. */
  datatype RepeatWindow = RepeatWindow(base: real, repeatStart: real, repeatEnd: real)

  /** How many windows are left to march from `point`; the loop's termination measure. */
  function WindowsLeft(point: real, primEndOffset: real): nat {
    if point < primEndOffset then primEndOffset.Floor - point.Floor + 1 else 0
  }

  /** The next window's end lands on the next integer or on `primEndOffset`, leaving fewer windows. */
  lemma {:induction false} WindowStep(point: real, primEndOffset: real)
    requires point < primEndOffset
    ensures var base := point.Floor as real;
      var next := Min(base + 1.0, primEndOffset) - base + base;
      && point < next
      && WindowsLeft(next, primEndOffset) < WindowsLeft(point, primEndOffset)
  {
    var base := point.Floor as real;
    var next := Min(base + 1.0, primEndOffset) - base + base;
    if base + 1.0 < primEndOffset {
      assert next == base + 1.0;
      assert next.Floor == point.Floor + 1;
    } else {
      assert next == primEndOffset;
    }
  }

  /** One step of the march, as the loop takes it: window `w` is drawn and the march resumes at `next`. */
  lemma {:induction false} RepeatWindowsUnfold(
    point: real, primEndOffset: real, w: RepeatWindow, next: real,
    stops: seq<GradientStopKey>, p: EmitParams, requestTask: RequestTask)
    requires point < primEndOffset && p.primStartOffset != p.primEndOffset
    requires w.base == point.Floor as real && w.repeatStart == point - w.base
    requires w.repeatEnd == Min(w.base + 1.0, primEndOffset) - w.base
    requires next == w.repeatEnd + w.base
    ensures WindowsLeft(next, primEndOffset) < WindowsLeft(point, primEndOffset)
    ensures RepeatSegments(stops, p, RepeatWindows(point, primEndOffset), requestTask)
      == EmittedFrom(stops, WindowParams(p, w), 0, requestTask) + RepeatSegments(stops, p, RepeatWindows(next, primEndOffset), requestTask)
  {
    WindowStep(point, primEndOffset);
    var ws := RepeatWindows(point, primEndOffset);
    assert ws == [w] + RepeatWindows(next, primEndOffset);
    assert ws[1..] == RepeatWindows(next, primEndOffset);
  }

  /** The windows of the repeat march from `point` up to `primEndOffset`. */
  function RepeatWindows(point: real, primEndOffset: real): seq<RepeatWindow>
    decreases WindowsLeft(point, primEndOffset)
  {
    if point < primEndOffset then
      var base := point.Floor as real;
      var w := RepeatWindow(base, point - base, Min(base + 1.0, primEndOffset) - base);
      WindowStep(point, primEndOffset);
      [w] + RepeatWindows(w.repeatEnd + base, primEndOffset)
    else []
  }

  /**
   * Shape of the march: every window has an integer base, starts in `[0, 1)` and ends after
   * its start and no later than 1; only the first window may start inside a copy, later ones
   * start at 0; consecutive windows abut; the last one ends at `primEndOffset`; and there are
   * at most `floor(primEndOffset) - floor(point) + 1` of them.
   */
  lemma {:induction false} RepeatWindowsShape(point: real, primEndOffset: real)
    ensures var ws := RepeatWindows(point, primEndOffset);
      && |ws| <= WindowsLeft(point, primEndOffset)
      && (point < primEndOffset <==> |ws| > 0)
      && (forall i :: 0 <= i < |ws| ==>
            && ws[i].base == ws[i].base.Floor as real
            && 0.0 <= ws[i].repeatStart < 1.0
            && ws[i].repeatStart < ws[i].repeatEnd <= 1.0)
      && (|ws| > 0 ==> ws[0].base + ws[0].repeatStart == point)
      && (forall i :: 0 < i < |ws| ==> ws[i].repeatStart == 0.0)
      && (forall i :: 0 <= i < |ws| - 1 ==> ws[i].base + ws[i].repeatEnd == ws[i + 1].base + ws[i + 1].repeatStart)
      && (|ws| > 0 ==> ws[|ws| - 1].base + ws[|ws| - 1].repeatEnd == primEndOffset)
    decreases WindowsLeft(point, primEndOffset)
  {
    if point < primEndOffset {
      var base := point.Floor as real;
      var w := RepeatWindow(base, point - base, Min(base + 1.0, primEndOffset) - base);
      var next := w.repeatEnd + base;
      WindowStep(point, primEndOffset);
      RepeatWindowsShape(next, primEndOffset);
      var rest := RepeatWindows(next, primEndOffset);
      var ws := RepeatWindows(point, primEndOffset);
      assert ws == [w] + rest;
      if |rest| > 0 {
        // the next window starts on an integer
        assert next == base + 1.0;
        assert next.Floor as real == next;
        assert rest[0].repeatStart == 0.0;
      } else {
        assert next >= primEndOffset;
        assert next == primEndOffset;
      }
      forall i | 0 < i < |ws|
        ensures ws[i].repeatStart == 0.0
      {
        if i > 1 {
          assert ws[i] == rest[i - 1];
        }
      }
    }
  }

  /** Two and a half copies: a march from -0.5 to 2.0 draws three windows. */
  lemma {:induction false} RepeatWindowsExample()
    ensures RepeatWindows(-0.5, 2.0) == [RepeatWindow(-1.0, 0.5, 1.0), RepeatWindow(0.0, 0.0, 1.0), RepeatWindow(1.0, 0.0, 1.0)]
  {
    assert (-0.5).Floor == -1;
    assert RepeatWindows(0.0, 2.0) == [RepeatWindow(0.0, 0.0, 1.0)] + RepeatWindows(1.0, 2.0);
    assert RepeatWindows(1.0, 2.0) == [RepeatWindow(1.0, 0.0, 1.0)] + RepeatWindows(2.0, 2.0);
  }

  /** The `emit_segments` arguments for one window of the repeat march. */
  function WindowParams(p: EmitParams, w: RepeatWindow): EmitParams {
    p.(startOffset := w.repeatStart, endOffset := w.repeatEnd, gradientOffsetBase := w.base)
  }

  function RepeatSegments(stops: seq<GradientStopKey>, p: EmitParams, ws: seq<RepeatWindow>, requestTask: RequestTask): seq<CachedGradientSegment>
    requires p.primStartOffset != p.primEndOffset
  {
    if ws == [] then []
    else EmittedFrom(stops, WindowParams(p, ws[0]), 0, requestTask) + RepeatSegments(stops, p, ws[1..], requestTask)
  }

  /**
   * The repeat march stays on the primitive: every window shifted by its base lies inside
   * the primitive's offset range, so every segment it emits lies inside the primitive.
   */
  lemma {:induction false} RepeatSegmentsWithinPrimitive(stops: seq<GradientStopKey>, p: EmitParams, point: real, requestTask: RequestTask)
    requires p.primStartOffset < p.primEndOffset
    requires p.primRect.size.width >= 0.0 && p.primRect.size.height >= 0.0
    requires p.primStartOffset <= point
    ensures forall g :: g in RepeatSegments(stops, p, RepeatWindows(point, p.primEndOffset), requestTask) ==>
      Contains(p.primRect, g.localRect) && Area(g.localRect.size) > 0.0
    decreases WindowsLeft(point, p.primEndOffset)
  {
    var ws := RepeatWindows(point, p.primEndOffset);
    if point < p.primEndOffset {
      var base := point.Floor as real;
      var w := RepeatWindow(base, point - base, Min(base + 1.0, p.primEndOffset) - base);
      var next := w.repeatEnd + base;
      WindowStep(point, p.primEndOffset);
      assert ws == [w] + RepeatWindows(next, p.primEndOffset);
      assert ws[1..] == RepeatWindows(next, p.primEndOffset);
      EmittedWithinPrimitive(stops, WindowParams(p, w), 0, requestTask);
      RepeatSegmentsWithinPrimitive(stops, p, next, requestTask);
    }
  }

  /** The template data the cached branch reads. */
  datatype CachedGradient = CachedGradient(
    startPoint: Point,
    endPoint: Point,
    primRect: Rect,
    stops: seq<GradientStop>,
    reverseStops: bool,
    extendMode: ExtendMode,
    isOpaque: bool,
    textureRegionDimensions: int)

  /** Orientation, task size and the gradient offsets at the primitive's two edges. */
  datatype Coverage = Coverage(orientation: LineOrientation, taskSize: IntSize, primStartOffset: real, primEndOffset: real)

  /**
   * What the cached branch needs to avoid dividing by zero and indexing an empty stop list:
   * a gradient line with extent along the chosen axis, a primitive with extent along it,
   * and at least one stop.
   */
  predicate ValidCachedGradient(g: CachedGradient) {
    && |g.stops| >= 1
    && (if g.startPoint.x == g.endPoint.x then g.endPoint.y != g.startPoint.y && g.primRect.size.height != 0.0
        else g.primRect.size.width != 0.0)
  }

  /**
   * The gradient offsets at the primitive's leading and trailing edges, with a texture-region
   * long task along the gradient axis and 16 pixels across it. A gradient whose end points
   * share an x coordinate runs vertically.
   */
  function CoveringOffsets(g: CachedGradient): (c: Coverage)
    requires ValidCachedGradient(g)
    ensures c.primStartOffset != c.primEndOffset
    ensures c.orientation == Vertical ==>
      && g.startPoint.y + c.primStartOffset * (g.endPoint.y - g.startPoint.y) == 0.0
      && g.startPoint.y + c.primEndOffset * (g.endPoint.y - g.startPoint.y) == g.primRect.size.height
    ensures c.orientation == Horizontal ==>
      && g.startPoint.x + c.primStartOffset * (g.endPoint.x - g.startPoint.x) == 0.0
      && g.startPoint.x + c.primEndOffset * (g.endPoint.x - g.startPoint.x) == g.primRect.size.width
  {
    if g.startPoint.x == g.endPoint.x then
      var h := g.endPoint.y - g.startPoint.y;
      Coverage(Vertical, IntSize(16, g.textureRegionDimensions),
               -g.startPoint.y / h, (g.primRect.size.height - g.startPoint.y) / h)
    else
      var w := g.endPoint.x - g.startPoint.x;
      Coverage(Horizontal, IntSize(g.textureRegionDimensions, 16),
               -g.startPoint.x / w, (g.primRect.size.width - g.startPoint.x) / w)
  }

  /** The whole content of `cache_segments` after the cached branch has run. */
  function LinearGradientSegments(g: CachedGradient, requestTask: RequestTask): seq<CachedGradientSegment>
    requires ValidCachedGradient(g)
  {
    var cov := CoveringOffsets(g);
    var keys := StopKeys(g.stops, g.reverseStops);
    var p := EmitParams(cov.primStartOffset, cov.primEndOffset, 0.0, cov.primStartOffset, cov.primEndOffset,
                        g.primRect, cov.taskSize, g.isOpaque, cov.orientation);
    if g.extendMode == Clamp || (cov.primStartOffset >= 0.0 && cov.primEndOffset <= 1.0) then
      EmittedFrom(WithClampBoundaryStops(keys, cov.primStartOffset, cov.primEndOffset), p, 0, requestTask)
    else
      RepeatSegments(keys, p, RepeatWindows(cov.primStartOffset, cov.primEndOffset), requestTask)
  }

  /**
   * For a primitive of non-negative size whose edges map to increasing offsets, every cached
   * segment of the gradient lies inside the primitive and has positive area.
   */
  lemma {:induction false} LinearGradientSegmentsWithinPrimitive(g: CachedGradient, requestTask: RequestTask)
    requires ValidCachedGradient(g)
    requires CoveringOffsets(g).primStartOffset < CoveringOffsets(g).primEndOffset
    requires g.primRect.size.width >= 0.0 && g.primRect.size.height >= 0.0
    ensures forall s :: s in LinearGradientSegments(g, requestTask) ==>
      Contains(g.primRect, s.localRect) && Area(s.localRect.size) > 0.0
  {
    var cov := CoveringOffsets(g);
    var keys := StopKeys(g.stops, g.reverseStops);
    var p := EmitParams(cov.primStartOffset, cov.primEndOffset, 0.0, cov.primStartOffset, cov.primEndOffset,
                        g.primRect, cov.taskSize, g.isOpaque, cov.orientation);
    if g.extendMode == Clamp || (cov.primStartOffset >= 0.0 && cov.primEndOffset <= 1.0) {
      EmittedWithinPrimitive(WithClampBoundaryStops(keys, cov.primStartOffset, cov.primEndOffset), p, 0, requestTask);
    } else {
      RepeatSegmentsWithinPrimitive(keys, p, cov.primStartOffset, requestTask);
    }
  }
}
