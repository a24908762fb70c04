# WebRender prepare pass — a Dafny model

This project models the core of `webrender/src/prepare.rs`. That is the per-frame pass of
WebRender's frame builder that readies every visible primitive for batching. The model covers
six parts of it:

- **Visibility masks.** The head of `prepare_primitives` walks the clusters of a primitive
  list. Every primitive that survived the visibility pass ORs in the masks of the dirty
  rectangles its clipped world rectangle intersects. A primitive whose mask stays empty is
  culled: its visibility index becomes `INVALID`.
- **Cached linear gradients.** The `emit_segments` walk cuts the stop list into runs of at most
  `GRADIENT_FP_STOPS` (4) stops, breaking at hard stops. Each visible run becomes a
  render-task cache request and a local rectangle on the primitive. Around it sit the stop
  keys (optionally reversed), the clamp path with its synthetic boundary stops, and the repeat
  path that marches integer-aligned copies of the gradient across the primitive.
- **Tiled gradients.** Repeated gradients with tile spacing are decomposed on the CPU. The
  visible repetitions become tiles, and a primitive with none is culled. The
  `may_need_repetition` flags of images, borders and gradients are part of this too.
- **Size clamps.** Oversized clip masks are shrunk to at most 4096 pixels per side
  (`adjust_mask_scale_for_max_size`). Cached line decorations are clamped the same way, and the
  border rasterisation scale is capped.
- **Brush segmentation.** `write_brush_segment_description` describes a primitive's same-node
  clips to the segment builder. `build_segments_if_needed` stores the builder's output as a
  segment instance, driven by the tri-state segment index (`INVALID` / `UNUSED` / valid).
  `write_segment` reads a stored instance back.
- **Clip-mask bookkeeping.** `update_brush_segment_clip_task` decides the clip-mask kind of
  each segment. `update_clip_task_for_brush` records one entry per segment. `update_clip_task`
  falls back to one mask for the whole primitive. Every new mask task is wired to the surface
  that consumes it.

Conventions:

- Coordinates, offsets and scales are exact `real`s.
- Rectangles follow euclid's origin-and-size form (`Geometry`).
- Visibility masks are sets of bit positions.
- The scratch buffer, the render-task graph, the primitive list, the segment builder, the
  gradient-tile store and a linear gradient's `cache_segments` are classes whose methods
  update their fields, as the source does.
- Pure decisions are functions:
  - the mask clamp;
  - the clip-mask decision;
  - the stop reversal;
  - the repetition flags.
- Each loop of the source is a method, proved against a specification function:
  - `EmittedFrom` for `emit_segments`;
  - `RepeatSegments`/`RepeatWindows` for the repeat march;
  - `MaskKinds`/`NewTasks`/`NewEdges` for the per-segment clip loop;
  - `StepDone`/`PreparedExactly` for the visibility loop.

Collaborators the pass calls but does not define are parameters:

- space mappers, as `Rect -> Option<Rect>`;
- `request_render_task`, as a function from cache key to handle;
- `SegmentBuilder::build`;
- the clip-chain builder;
- `compute_conservative_visible_rect` and `image_tiling::repetitions`;
- `raster_rect_to_device_pixels`;
- `MAX_LINE_DECORATION_RESOLUTION` and `TEXTURE_REGION_DIMENSIONS`, whose defining files are
  not part of this model.

Modules:

| file | module | contents |
|---|---|---|
| common.dfy | Common | `Option`, min/max, ceiling and truncation, small real-arithmetic lemmas |
| geometry.dfy | Geometry | points, sizes, rectangles, euclid's `intersects`/`intersection`/`round_out` |
| cache_sizing.dfy | CacheSizing | mask clamp, line-decoration clamp, border scale, unclipped device rect |
| gradient_stops.dfy | GradientStops | stop keys, reversal, clamp boundary stops |
| gradient_runs.dfy | GradientRuns | the stop-run scan of `emit_segments` and its shape |
| gradient_cache.dfy | GradientCache | `emit_segments`, the clamp and repeat drivers, `cache_segments` |
| primitives.dfy | Primitives | primitive kinds, scratch buffer, render-task graph, repetition flags |
| tiles.dfy | Tiles | `decompose_repeated_primitive` and the tile arms of the gradients |
| segment_building.dfy | SegmentBuilding | segment description, building, `write_segment` |
| clip_tasks.dfy | ClipTasks | clip-mask decisions and bookkeeping |
| visibility.dfy | Visibility | the visibility-mask loop of `prepare_primitives` |

## Model

| member | source | states |
|---|---|---|
| CacheSizing.AdjustMaskScaleForMaxSize | webrender/src/prepare.rs:1805-1818 | whatever the input, neither integer side of the returned mask rectangle exceeds MAX_MASK_SIZE (4096) |
| CacheSizing.MaskShrinkFactorBounds | webrender/src/prepare.rs:1806-1810 | for an oversized rectangle the factor (4096 - 1) / max(w, h) lies strictly between 0 and 1, maps the longer side to exactly 4095 and both sides to at most 4095 |
| CacheSizing.ShrunkMaskWithin | webrender/src/prepare.rs:1809-1814 | the oversized rectangle, scaled by the factor and rounded out, is at most 4096 on each side |
| CacheSizing.RoundOutWithinMask | webrender/src/prepare.rs:1812-1814 | rounding out a rectangle of at most 4095 per side gives at most 4096 per side: the `- 1` leaves room for the round-out |
| CacheSizing.TruncWithin | webrender/src/prepare.rs:1816-1817 | a rectangle within the limit keeps both integer sides within 4096 after the cast |
| CacheSizing.AdjustMaskScaleShrinksOnlyOversized | webrender/src/prepare.rs:1806-1818 | with a positive scale, the scale is returned unchanged exactly when the rectangle is within the limit, and otherwise strictly smaller and still positive |
| CacheSizing.AdjustMaskKeepsSmallRects | webrender/src/prepare.rs:1816-1817 | a non-negative rectangle within the limit keeps its scale and its size, truncated to integers |
| CacheSizing.OversizedMaskExample | webrender/src/prepare.rs:1806-1815 | a 5000 x 100 mask at scale 1 comes out within 4096 x 4096 at a scale below 1 |
| CacheSizing.LineDecorationTaskSize | webrender/src/prepare.rs:299-307 | neither side of the line-decoration task exceeds MAX_LINE_DECORATION_RESOLUTION, and for a non-negative size no side is larger than the unclamped rounded-up size |
| CacheSizing.ClampedSide | webrender/src/prepare.rs:303-306 | one side rescaled by resolution / max_extent and rounded up is at most the resolution and never more than the side's own ceiling |
| CacheSizing.LineDecorationClampBound | webrender/src/prepare.rs:303-306 | the rescaled side's ceiling is bounded by the resolution and, for non-negative sides, by the unscaled ceiling |
| CacheSizing.BorderRasterScale | webrender/src/prepare.rs:427-433 | the border scale is the larger normalised world scale times the device-pixel scale, capped by the border's maximum: never above either, and equal to one of them |
| CacheSizing.UnclippedDeviceRect | webrender/src/prepare.rs:1755-1763 | the unclipped device rectangle exists exactly when the picture-to-raster mapping succeeds, and taking it back to raster space (the first step of `get_clipped_device_rect`) gives the mapped raster rectangle again |
| CacheSizing.UnclippedRoundTrip | webrender/src/prepare.rs:1776-1781 | scaling a raster rectangle to device pixels and back by the inverse scale is the identity for a non-zero scale |
| GradientStops.BuildStopKeys | webrender/src/prepare.rs:618-634 | the keys are the stops in order, or with `reverse_stops` key i has offset 1 - stops[n-1-i].offset and that stop's colour |
| GradientStops.ReversedInvolution | webrender/src/prepare.rs:622-629 | reversing the stops twice gives the template's stops back |
| GradientStops.ReversedAscending | webrender/src/prepare.rs:622-629 | reversal keeps ascending stops with offsets in 0..1 ascending and in 0..1 |
| GradientStops.StopKeysAscending | webrender/src/prepare.rs:618-634 | the cache keys are ascending whenever the template's stops are, reversed or not |
| GradientStops.WithClampBoundaryStops | webrender/src/prepare.rs:799-811 | a stop at prim_start_offset with the first colour is prepended iff prim_start_offset < 0, a stop at prim_end_offset with the last colour is appended iff prim_end_offset > 1, and the original keys sit unchanged in between |
| GradientStops.ClampBoundaryStopsAscending | webrender/src/prepare.rs:799-811 | the boundary stops keep an ascending key list in 0..1 ascending |
| GradientRuns.ScanRunShape | webrender/src/prepare.rs:691-702 | the inner scan from a hard-stop-free prefix returns a well-formed run starting at first_stop: at most GRADIENT_FP_STOPS stops, no hard stop inside, ended by a hard stop exactly when the run holds fewer than GRADIENT_FP_STOPS stops and the next stop shares its offset, and otherwise as long as it can be |
| GradientRuns.RunShape | webrender/src/prepare.rs:689-710 | every run holds 1..GRADIENT_FP_STOPS stops, so the `num_stops == 0` branch never runs; the next first_stop (last_stop + 1 after a hard stop, last_stop otherwise) is strictly larger, at most the final stop, and at the same offset as the run's last stop |
| GradientRuns.HardStopRunExample | webrender/src/prepare.rs:691-702 | stops 0, 0.5, 0.5, 1 give the run [0, 1] ended by a hard stop, then the run [2, 3] |
| GradientRuns.LongRunExample | webrender/src/prepare.rs:691-702 | six distinct stops give a run of four and a run of three sharing the fourth stop |
| GradientRuns.VisitedRunsChain | webrender/src/prepare.rs:681-789 | the runs the outer loop visits are fewer than the stops, well formed, each starting at a stop no later than end_offset, the first at first_stop, and each later one where its predecessor said the next starts, strictly forwards |
| GradientRuns.VisitedRunsWellFormed | webrender/src/prepare.rs:681-789 | each visited run is well formed and starts no later than end_offset, and there are at most as many runs as stops from first_stop |
| GradientRuns.VisitedRunsLinked | webrender/src/prepare.rs:681-789 | consecutive visited runs are linked by the next-first rule, and first_stop strictly increases |
| GradientRuns.VisitedRunsCover | webrender/src/prepare.rs:681-789 | every stop before the final one, with it and all earlier stops at or before end_offset, lies within some visited run or at the start of the next |
| GradientCache.RunSegments | webrender/src/prepare.rs:712-786 | a run contributes at most one segment, none when its last stop is before start_offset, and only segments of positive area |
| GradientCache.EmittedFromStep | webrender/src/prepare.rs:681-789 | one outer turn: a run that starts within the window contributes its segment ahead of the segments from the next first_stop |
| GradientCache.EmittedAtMostOnePerRun | webrender/src/prepare.rs:681-790 | `emit_segments` appends at most one segment per visited run |
| GradientCache.SegmentRectIsAxisImage | webrender/src/prepare.rs:741-752 | a segment's rectangle spans, along the gradient axis, from the image of segment_start_point + base to that of segment_end_point + base, and keeps the primitive's extent across it (the bases cancel out of the length) |
| GradientCache.AxisPositionWithin | webrender/src/prepare.rs:741-752 | an offset between prim_start_offset and prim_end_offset maps onto the primitive |
| GradientCache.EmittedWithinPrimitive | webrender/src/prepare.rs:658-791 | when the shifted window lies inside the primitive's offset range, every appended rectangle lies inside the primitive and has positive area |
| GradientCache.RunSegmentWithinPrimitive | webrender/src/prepare.rs:718-786 | a visible run's rectangle lies inside the primitive |
| GradientCache.RunSegmentPushedIff | webrender/src/prepare.rs:713-755 | on a primitive of positive size a visible run's segment is pushed exactly when max(start_offset, first stop) < min(end_offset, last stop), and the key's start and end are bounded by the window and by the run's stops |
| GradientCache.SegmentAreaPositiveIff | webrender/src/prepare.rs:741-755 | on a primitive of positive size the mapped rectangle has positive area exactly when its offset range is non-empty |
| GradientCache.ScanStops | webrender/src/prepare.rs:691-702 | the inner `while` loop returns exactly the run the scan specification gives |
| GradientCache.LinearGradientPrimitive.EmitSegments | webrender/src/prepare.rs:658-791 | the outer loop appends exactly `EmittedFrom(stops, p, 0)` to cache_segments, stopping early at the first stop past end_offset |
| GradientCache.LinearGradientPrimitive.EmitRun | webrender/src/prepare.rs:683-789 | one outer turn moves first_stop strictly forwards within the stop list and appends what that run contributes |
| GradientCache.LinearGradientPrimitive.PushRunSegment | webrender/src/prepare.rs:718-786 | a visible run's key (clipped offsets, padded stops) and shrunk rectangle are pushed exactly when the rectangle has positive area |
| GradientCache.LinearGradientPrimitive.MarchRepeatWindows | webrender/src/prepare.rs:827-853 | the repeat loop appends the segments of every window of `RepeatWindows`, in order |
| GradientCache.LinearGradientPrimitive.EmitWindow | webrender/src/prepare.rs:833-852 | one repeat turn draws the window under the current point and returns the next start, leaving fewer windows to march |
| GradientCache.LinearGradientPrimitive.PrepareCachedSegments | webrender/src/prepare.rs:594-854 | after the cached branch, cache_segments holds exactly `LinearGradientSegments`: the clamp path's segments with boundary stops, or the repeat march's |
| GradientCache.WindowStep | webrender/src/prepare.rs:833-852 | each window ends past the current point and leaves strictly fewer windows |
| GradientCache.RepeatWindowsUnfold | webrender/src/prepare.rs:828-853 | one repeat turn draws the window computed from floor(point) and resumes at repeat_end + base |
| GradientCache.RepeatWindowsShape | webrender/src/prepare.rs:827-853 | every window has an integer base, repeat_start in [0, 1) and repeat_start < repeat_end <= 1; the first starts at the point, later ones at 0; consecutive windows abut; the last ends at prim_end_offset; there are at most floor(end) - floor(start) + 1 of them, and some iff start < end |
| GradientCache.RepeatWindowsExample | webrender/src/prepare.rs:827-853 | a march from -0.5 to 2.0 draws the windows (-1, 0.5, 1), (0, 0, 1) and (1, 0, 1) |
| GradientCache.RepeatSegmentsWithinPrimitive | webrender/src/prepare.rs:827-853 | every segment of the repeat march lies inside the primitive and has positive area |
| GradientCache.CoveringOffsets | webrender/src/prepare.rs:602-615 | prim_start_offset and prim_end_offset are the gradient parameters of the primitive's leading and trailing edges along the chosen axis, and differ |
| GradientCache.LinearGradientSegmentsWithinPrimitive | webrender/src/prepare.rs:594-854 | for a primitive whose edges map to increasing offsets, every cached segment lies inside the primitive and has positive area |
| Primitives.PrimitiveScratchBuffer.SegmentsOf | webrender/src/prepare.rs:1212-1214 | a stored segment instance owns at least two segments |
| Primitives.PrimitiveScratchBuffer.PushSegmentInstance | webrender/src/prepare.rs:1742-1749 | the segments are appended to the store and a new instance owning exactly them is pushed; its index is the old instance count |
| Primitives.PrimitiveScratchBuffer.PushClipMask | webrender/src/prepare.rs:1462-1463 | one entry is appended to clip_mask_instances and its position is the old length |
| Primitives.RenderTaskGraph.AddMaskTask | webrender/src/prepare.rs:1522-1539 | a new mask task gets the next id and an edge from the surface, so every task keeps a consumer |
| Primitives.RenderTaskGraph.NewMask | webrender/src/prepare.rs:1522-1533 | a mask task of the adjusted rectangle and scale is appended under the next id |
| Primitives.RenderTaskGraph.AddDependency | webrender/src/prepare.rs:1534-1539 | one edge is appended and the tasks are untouched |
| Primitives.AllConsumedExtend | webrender/src/prepare.rs:1534-1539 | appending tasks with one consuming edge each, in order, keeps every task consumed |
| Primitives.BorderFlagOrderFree | webrender/src/prepare.rs:399-403 | a normal border's flag depends only on which styles its four sides use, not on which side has which or how often: two borders whose sides use the same set of styles (any rotation, mirroring or rearrangement of one border) get the same flag |
| Primitives.StretchFlagMeansUncovered | webrender/src/prepare.rs:557-561 | after the stretch test an image or linear gradient keeps its repetition flag exactly when the template set it and the single stretch placed at the primitive's origin does not contain the primitive |
| Primitives.StretchMayNeedRepetitionIdempotent | webrender/src/prepare.rs:588-592 | a second frame with the same sizes leaves the flag as the first frame did |
| Tiles.GradientTileStorage.Extend | webrender/src/prepare.rs:1173 | the tiles are appended and the returned range addresses exactly them |
| Tiles.DecomposeRepeatedPrimitive | webrender/src/prepare.rs:1120-1175 | with no visible repetition the store is untouched and the empty range returned; otherwise one tile per repetition is appended and the range addresses them |
| Tiles.DecomposedRangeAddressesTiles | webrender/src/prepare.rs:1136-1174 | a non-empty decomposition's range is non-empty, holds exactly the new tiles, and each tile's clip lies inside both the primitive and its clip rectangle |
| Tiles.TiledFlagMeansShaderRepetition | webrender/src/prepare.rs:857-860 | the stretch and tile-spacing steps of a gradient only ever clear the flag; it stays set exactly when the template set it, there is no tile spacing (so the shader repeats), and the single stretch at the primitive's origin does not contain the primitive |
| Tiles.PrepareTiledGradient | webrender/src/prepare.rs:904-964 | without tile spacing nothing is decomposed; with it the shader flag is cleared, the range is empty iff no repetition is visible, the primitive is culled exactly then (or if it already was), and the store grows by exactly the repeated tiles |
| SegmentBuilding.SegmentBuilder.Initialize | webrender/src/prepare.rs:1563-1567 | the builder is reset to the primitive and clip rectangles with no items |
| SegmentBuilding.SegmentBuilder.PushClipRect | webrender/src/prepare.rs:1627 | one clip-rectangle item is appended |
| SegmentBuilding.SegmentBuilder.PushMaskRegion | webrender/src/prepare.rs:1605-1612 | one mask-region item is appended |
| SegmentBuilding.DescribedItemsSnoc | webrender/src/prepare.rs:1570-1628 | after a prefix with no same-node image mask, one more clip appends its own item, or none if it belongs to another spatial node |
| SegmentBuilding.DescribedItemsStopAtImage | webrender/src/prepare.rs:1616-1624 | a same-node image mask ends the description: later clips add nothing |
| SegmentBuilding.DescribedItemsBound | webrender/src/prepare.rs:1570-1628 | the builder never receives more items than there are clips |
| SegmentBuilding.DescribedItemsIgnoreOtherNodes | webrender/src/prepare.rs:1580-1582 | clips of other spatial nodes never change the description |
| SegmentBuilding.WriteBrushSegmentDescription | webrender/src/prepare.rs:1549-1631 | returns true iff the area is at least 128 x 128 and no same-node clip is an image mask; a small primitive leaves the builder untouched, otherwise the builder is reset and holds exactly the same-node items up to the first image mask |
| SegmentBuilding.BuiltSegments | webrender/src/prepare.rs:1704-1726 | no segments when the description fails; otherwise one per built segment, moved into the primitive's local space |
| SegmentBuilding.CollectSegments | webrender/src/prepare.rs:1715-1725 | the builder callback's pushes collect exactly the translated output, in order |
| SegmentBuilding.WithSegmentIndex | webrender/src/prepare.rs:1680-1683 | the kind keeps its variant and gets the new index; a picture is marked valid again |
| SegmentBuilding.BuildSegmentsIfNeeded | webrender/src/prepare.rs:1633-1752 | only an INVALID index consults the builder (otherwise the builder is untouched); <= 1 segments store UNUSED, more are appended as one new instance owning exactly them, after the unchanged earlier instances, and its index is stored; a tiled image is forced to UNUSED; a picture with invalid segments is rebuilt; no handled kind is left INVALID, and all indices stay within the store |
| SegmentBuilding.SegmentedKind | webrender/src/prepare.rs:1651-1688 | after building, a kind the pass works on never keeps an `Invalid` index, a tiled image is `Unused`, and kinds without a segment index are untouched |
| SegmentBuilding.UnsplittablePrimitivesGetNoSegments | webrender/src/prepare.rs:1704-1726 | a primitive below the split area, or with a same-node image mask, gets no segments |
| SegmentBuilding.WriteSegment | webrender/src/prepare.rs:1094-1118 | the header is written iff the index is a stored instance needing a write, followed by exactly that instance's segment rectangles; UNUSED writes nothing |
| ClipTasks.ClippedRasterRect | webrender/src/prepare.rs:1770-1794 | a clipped rectangle, when one exists, lies inside the unclipped raster rectangle, is not empty, and comes from a world rectangle that intersects the bounding rectangle |
| ClipTasks.SegmentClipDecision | webrender/src/prepare.rs:1488-1545 | a missing chain is Clipped; the result is None iff the chain needs no mask or neither the segment nor the chain needs one; a Mask is made iff the world rectangle exists, meets the bounding rectangle and clips to a device rectangle, and its target is within 4096 per side |
| ClipTasks.MaskKinds | webrender/src/prepare.rs:1322-1362 | exactly one clip-mask entry per segment |
| ClipTasks.MaskKindsReferToNewTasks | webrender/src/prepare.rs:1322-1362 | each entry matches its segment's decision, and a Mask entry names exactly the task made for that segment: ids are consecutive from the old task count, in segment order |
| ClipTasks.MaskKindRefersToTask | webrender/src/prepare.rs:1348-1361 | the same, for one segment |
| ClipTasks.NewEdgesWireNewTasks | webrender/src/prepare.rs:1534-1539 | every new task gets exactly one edge from the surface, in task order |
| ClipTasks.UpdateBrushSegmentClipTask | webrender/src/prepare.rs:1475-1546 | returns the entry for the decision; only a Mask decision adds a task, under the next id, and its edge from the surface |
| ClipTasks.RecordNextSegmentClipTask | webrender/src/prepare.rs:1348-1361 | one loop turn extends the recorded entries, tasks and edges by one segment's |
| ClipTasks.RecordedSnoc | webrender/src/prepare.rs:1348-1361 | appending one decision's records to the records of the earlier decisions gives the records of all of them |
| ClipTasks.BatchKeepsConsumed | webrender/src/prepare.rs:1322-1362 | recording a batch of decisions keeps every task of the graph consumed |
| ClipTasks.PushSegmentClipTasks | webrender/src/prepare.rs:1304-1363 | the segments' entries, tasks and edges are appended in segment order, and the graph stays valid |
| ClipTasks.BrushSegmentsOf | webrender/src/prepare.rs:1196-1287 | text runs, clears, line decorations and backdrops are declined; a kind with a segment index is handled iff the index names a stored instance, and then yields exactly that instance's segments (at least two); borders always yield their own segments, and only they can yield none; gradients are handled iff they have brush segments, which they yield |
| ClipTasks.UpdateClipTaskForBrush | webrender/src/prepare.rs:1178-1366 | returns true iff the kind has brush segments; with none, nothing changes; otherwise clip_task_index is set to the old length of clip_mask_instances and exactly one entry per segment is appended, in order, with its tasks and edges; mask entries stay resolvable |
| ClipTasks.MaskKindsResolve | webrender/src/prepare.rs:1298-1363 | after a batch, every mask entry names a task that exists |
| ClipTasks.NothingAppended | webrender/src/prepare.rs:1291-1293 | recording nothing is a valid append |
| ClipTasks.BatchIsAppended | webrender/src/prepare.rs:1298-1363 | a batch keeps old entries and tasks, names only new tasks in new mask entries, wires every new task to the surface, and keeps entries resolvable |
| ClipTasks.PushPrimitiveClipTask | webrender/src/prepare.rs:1433-1470 | when the chain needs a mask and the clipped device rectangle exists, one task of the adjusted target is made, consumed by the surface, and recorded as the primitive's only entry at the old length; otherwise nothing changes |
| ClipTasks.UpdateClipTask | webrender/src/prepare.rs:1368-1471 | without an unclipped device rectangle nothing changes; otherwise the kind becomes what building gives (a tiled image `Unused`, an `Invalid` index `Unused` or the next stored instance, which appends the built segments and one instance owning them, keeping the earlier instances), and then either the brush path records one entry, task and edge set per segment, or, when it declines, the fallback records the single whole-primitive mask or nothing; only this primitive's visibility entry changes, the graph stays valid, every new entry names a new task and every new task is consumed |
| Visibility.DirtyMaskMembers | webrender/src/prepare.rs:76-80 | a bit is ORed in iff some dirty rectangle that intersects the clipped world rectangle carries it |
| Visibility.DirtyMaskEmptyWhenNothingIntersects | webrender/src/prepare.rs:76-80 | a primitive that misses every dirty rectangle collects nothing |
| Visibility.AccumulateDirtyMask | webrender/src/prepare.rs:76-80 | the loop's result is the old mask ORed with the masks of exactly the intersecting dirty rectangles |
| Visibility.VisitInstance | webrender/src/prepare.rs:71-88 | the entry's mask becomes the accumulated mask, and the instance is culled exactly when it is empty |
| Visibility.StepDoneExtend | webrender/src/prepare.rs:64-88 | visiting one more instance finishes it and leaves every other instance and entry as it was |
| Visibility.PreparedExtend | webrender/src/prepare.rs:64-108 | the surviving instances stay exactly the visited visible ones, in increasing order |
| Visibility.VisitCluster | webrender/src/prepare.rs:64-108 | the cluster's instances are visited in order; its survivors are appended to the prepared ones; visibility entries owned by no visited instance keep their value |
| Visibility.PreparePrimitives | webrender/src/prepare.rs:45-109 | after the pass, every visible instance in a cluster has its mask ORed with the intersecting dirty masks and is culled iff that mask is empty; already-INVALID instances and instances outside the clusters are untouched, and so is every visibility entry that no visited instance owns; the prepared instances are exactly the survivors, in list order |

## Left out

- Floating point: coordinates are exact reals. IEEE rounding, NaN, infinities and the `approx_eq` orientation test are not modelled. The orientation test is exact equality of the x coordinates.
- `prepare_prim_for_render` and the picture recursion are not part of this model. That includes `take_context`/`restore_context`, surface and raster configuration, plane splitting and `prepare_for_render`. The pass hands the surviving instances on as a list of indices.
- Text runs, image borders and backdrops are not part of this model. Of images and YUV images, only the stretch flag, the segment index and `write_segment` are modelled: the rest of their `prepare_prim_for_render` arms is left out, namely resource-cache requests, request of image tiles and the template `update` calls. So are GPU-cache requests, the GPU block payloads and render-task handles. Handles are opaque numbers, and a GPU-cache request is a `needsWrite` flag.
- `request_render_task`, the space mappers, `raster_rect_to_device_pixels`, `compute_conservative_visible_rect`, `image_tiling::repetitions`, `SegmentBuilder::build`, `build_clip_chain_instance`, `set_active_clips_from_clip_chain`, `clamp_to_scale_factor` and `get_max_scale_for_border` are parameters. Their implementations live outside this file.
- The clips of a clip chain are given as a list. The clip store's range lookup is not part of this model.
- The render-task graph holds only clip-mask tasks and dependency edges. The other task kinds and the surface task are not part of this model. The surface's port is a parameter.
- `ClipTaskIndex` is an unbounded natural. The source's narrowing `as _` cast is not modelled.
- Normal-border segment requests (`build_border_instances`) and the border template update are not part of this model. Only the repetition flag and the scale cap are modelled.
- Diagnostics have no functional effect and are left out: profile scopes, `is_chased` prints and profiler counters.
- CacheSizing.UnclippedRasterRect: a device-pixel scale of 0 returns the rectangle unchanged. The source would divide by zero there. Only non-zero scales are covered by the round-trip property.
- GradientCache.CoveringOffsets: requires a gradient line and primitive with extent along the chosen axis, and at least one stop. Otherwise the source divides by zero or indexes an empty list.
- Tiles.DecomposeRepeatedPrimitive: requires the clip rectangle to intersect the primitive, where the source unwraps the intersection.
- Visibility.PreparePrimitives: requires well-formed, non-overlapping clusters and a distinct visibility entry per visible instance. The source relies on both without checking.
- Tiles.PrepareTiledGradient: returns `None` for the tile range when there is no tile spacing. There the source leaves `visible_tiles_range` as it was.
- SegmentBuilding.WriteSegment: the `INVALID` index is excluded by a precondition. The source only debug-asserts it.
