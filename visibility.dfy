/**
 * The visibility-mask step at the head of `prepare_primitives`: each primitive that survived
 * the visibility pass collects the visibility masks of the dirty rectangles its clipped world
 * rectangle intersects, and is culled when it collects none.
 */
module Visibility {
  import opened Geometry
  import opened Primitives

  /** A dirty rectangle of the current dirty region, with the tiles it covers as a bit set. */
  datatype DirtyRect = DirtyRect(worldRect: Rect, visibilityMask: set<nat>)

  /** The bits of the dirty rectangles that `rect` intersects. */
  function DirtyMask(rect: Rect, dirty: seq<DirtyRect>): set<nat> {
    if dirty == [] then {}
    else
      var last := dirty[|dirty| - 1];
      DirtyMask(rect, dirty[..|dirty| - 1]) + (if Intersects(rect, last.worldRect) then last.visibilityMask else {})
  }

  /** A bit is collected exactly when some dirty rectangle intersecting `rect` carries it. */
  lemma {:induction false} DirtyMaskMembers(rect: Rect, dirty: seq<DirtyRect>, bit: nat)
    ensures bit in DirtyMask(rect, dirty) <==>
      exists k :: 0 <= k < |dirty| && Intersects(rect, dirty[k].worldRect) && bit in dirty[k].visibilityMask
  {
    if dirty != [] {
      var prefix := dirty[..|dirty| - 1];
      DirtyMaskMembers(rect, prefix, bit);
      if bit in DirtyMask(rect, prefix) {
        var k :| 0 <= k < |prefix| && Intersects(rect, prefix[k].worldRect) && bit in prefix[k].visibilityMask;
        assert dirty[k] == prefix[k];
      }
      if exists k :: 0 <= k < |dirty| && Intersects(rect, dirty[k].worldRect) && bit in dirty[k].visibilityMask {
        var k :| 0 <= k < |dirty| && Intersects(rect, dirty[k].worldRect) && bit in dirty[k].visibilityMask;
        if k < |dirty| - 1 {
          assert prefix[k] == dirty[k];
        }
      }
    }
  }

  /** A primitive that misses every dirty rectangle collects nothing. */
  lemma {:induction false} DirtyMaskEmptyWhenNothingIntersects(rect: Rect, dirty: seq<DirtyRect>)
    requires forall k :: 0 <= k < |dirty| ==> !Intersects(rect, dirty[k].worldRect)
    ensures DirtyMask(rect, dirty) == {}
  {
    if dirty != [] {
      var prefix := dirty[..|dirty| - 1];
      forall k | 0 <= k < |prefix| ensures !Intersects(rect, prefix[k].worldRect) {
        assert prefix[k] == dirty[k];
      }
      DirtyMaskEmptyWhenNothingIntersects(rect, prefix);
    }
  }

  /** The mask of a visibility entry after the step. */
  function NewMask(info: PrimitiveVisibility, dirty: seq<DirtyRect>): set<nat> {
    info.visibilityMask + DirtyMask(info.clippedWorldRect, dirty)
  }

  /** ORs in the mask of every dirty rectangle the given rectangle intersects. */
  method AccumulateDirtyMask(rect: Rect, mask: set<nat>, dirty: seq<DirtyRect>) returns (m: set<nat>)
    ensures m == mask + DirtyMask(rect, dirty)
  {
    m := mask;
    for k := 0 to |dirty|
      invariant m == mask + DirtyMask(rect, dirty[..k])
    {
      assert dirty[..k + 1][..k] == dirty[..k];
      if Intersects(rect, dirty[k].worldRect) {
        m := m + dirty[k].visibilityMask;
      }
    }
    assert dirty[..|dirty|] == dirty;
  }

  /** The primitive list: instances and the clusters that own ranges of them. */
  class PrimitiveList {
    var primInstances: seq<PrimitiveInstance>
    var clusters: seq<Range>

    constructor (primInstances: seq<PrimitiveInstance>, clusters: seq<Range>)
      ensures this.primInstances == primInstances && this.clusters == clusters
    {
      this.primInstances := primInstances;
      this.clusters := clusters;
    }
  }

  /** Cluster ranges lie inside the instance list, in order and without overlap. */
  predicate ClustersWellFormed(clusters: seq<Range>, n: nat) {
    && (forall c :: 0 <= c < |clusters| ==> clusters[c].start <= clusters[c].end <= n)
    && (forall a, b :: 0 <= a < b < |clusters| ==> clusters[a].end <= clusters[b].start)
  }

  /** Every visible instance owns its own entry of a visibility table of `n` entries. */
  predicate SlotsOwned(insts: seq<PrimitiveInstance>, n: nat) {
    && (forall i :: 0 <= i < |insts| && insts[i].visibilityInfo.VisibilityAt? ==> insts[i].visibilityInfo.index < n)
    && (forall i, j :: 0 <= i < j < |insts| && insts[i].visibilityInfo.VisibilityAt? && insts[j].visibilityInfo.VisibilityAt? ==>
          insts[i].visibilityInfo.index != insts[j].visibilityInfo.index)
  }

  predicate InClusters(clusters: seq<Range>, i: nat) {
    exists c :: 0 <= c < |clusters| && clusters[c].start <= i < clusters[c].end
  }

  /** The state of a visited instance after the step: culled exactly when its mask is empty. */
  function VisitedInstance(inst: PrimitiveInstance, mask: set<nat>): PrimitiveInstance {
    if mask == {} then inst.(visibilityInfo := InvalidVisibility) else inst
  }

  /** The step for one visible instance: its entry's mask grows by the dirty mask, and it is culled if that is empty. */
  method VisitInstance(list: PrimitiveList, scratch: PrimitiveScratchBuffer, i: nat, dirty: seq<DirtyRect>)
    returns (survives: bool)
    requires i < |list.primInstances| && list.primInstances[i].visibilityInfo.VisibilityAt?
    requires list.primInstances[i].visibilityInfo.index < |scratch.primInfo|
    modifies list, scratch
    ensures var v := old(list.primInstances[i]).visibilityInfo.index;
      var m := NewMask(old(scratch.primInfo[v]), dirty);
      && scratch.primInfo == old(scratch.primInfo)[v := old(scratch.primInfo[v]).(visibilityMask := m)]
      && list.primInstances == old(list.primInstances)[i := VisitedInstance(old(list.primInstances[i]), m)]
      && (survives <==> m != {})
    ensures list.clusters == old(list.clusters)
    ensures scratch.segments == old(scratch.segments) && scratch.segmentInstances == old(scratch.segmentInstances)
    ensures scratch.clipMaskInstances == old(scratch.clipMaskInstances)
  {
    var v := list.primInstances[i].visibilityInfo.index;
    var info := scratch.primInfo[v];
    var m := AccumulateDirtyMask(info.clippedWorldRect, info.visibilityMask, dirty);
    scratch.primInfo := scratch.primInfo[v := info.(visibilityMask := m)];
    survives := m != {};
    if !survives {
      list.primInstances := list.primInstances[i := list.primInstances[i].(visibilityInfo := InvalidVisibility)];
    }
  }

  /** The visited set grows by one cluster's range. */
  lemma {:induction false} InClustersStep(clusters: seq<Range>, c: nat, i: nat)
    requires c < |clusters|
    ensures InClusters(clusters[..c + 1], i) <==> InClusters(clusters[..c], i) || clusters[c].start <= i < clusters[c].end
  {
    if InClusters(clusters[..c + 1], i) {
      var a :| 0 <= a < c + 1 && clusters[..c + 1][a].start <= i < clusters[..c + 1][a].end;
      if a < c {
        assert clusters[..c][a] == clusters[a];
      }
    }
    if InClusters(clusters[..c], i) {
      var a :| 0 <= a < c && clusters[..c][a].start <= i < clusters[..c][a].end;
      assert clusters[..c + 1][a] == clusters[..c][a];
    }
    if clusters[c].start <= i < clusters[c].end {
      assert clusters[..c + 1][c] == clusters[c];
    }
  }

  /** Indices visited in earlier clusters come before the start of any later cluster. */
  lemma {:induction false} VisitedBeforeCluster(clusters: seq<Range>, n: nat, c: nat, i: nat)
    requires ClustersWellFormed(clusters, n) && c < |clusters| && InClusters(clusters[..c], i)
    ensures i < clusters[c].start
  {
    var a :| 0 <= a < c && clusters[..c][a].start <= i < clusters[..c][a].end;
    assert clusters[..c][a] == clusters[a];
  }

  /** The post-state of every instance and visibility entry once the instances in `visited` are done. */
  ghost predicate StepDone(
    insts: seq<PrimitiveInstance>, oldInsts: seq<PrimitiveInstance>,
    info: seq<PrimitiveVisibility>, oldInfo: seq<PrimitiveVisibility>,
    dirty: seq<DirtyRect>, visited: iset<nat>)
    requires |insts| == |oldInsts| && |info| == |oldInfo| && SlotsOwned(oldInsts, |oldInfo|)
  {
    && (forall i :: 0 <= i < |insts| ==>
          if i in visited && oldInsts[i].visibilityInfo.VisibilityAt? then
            var v := oldInsts[i].visibilityInfo.index;
            info[v] == oldInfo[v].(visibilityMask := NewMask(oldInfo[v], dirty))
            && insts[i] == VisitedInstance(oldInsts[i], NewMask(oldInfo[v], dirty))
          else
            insts[i] == oldInsts[i]
            && (oldInsts[i].visibilityInfo.VisibilityAt? ==> info[oldInsts[i].visibilityInfo.index] == oldInfo[oldInsts[i].visibilityInfo.index]))
    && (forall v :: 0 <= v < |info| ==>
          info[v] == oldInfo[v] || info[v] == oldInfo[v].(visibilityMask := NewMask(oldInfo[v], dirty)))
    && (forall v :: 0 <= v < |info|
          && (forall i :: 0 <= i < |oldInsts| && i in visited ==> oldInsts[i].visibilityInfo != VisibilityAt(v))
          ==> info[v] == oldInfo[v])
  }

  /** Visiting one more instance extends the finished part of the step by that instance. */
  lemma {:induction false} StepDoneExtend(
    insts: seq<PrimitiveInstance>, oldInsts: seq<PrimitiveInstance>,
    info: seq<PrimitiveVisibility>, oldInfo: seq<PrimitiveVisibility>,
    dirty: seq<DirtyRect>, visited: iset<nat>, k: nat,
    insts2: seq<PrimitiveInstance>, info2: seq<PrimitiveVisibility>, visited2: iset<nat>)
    requires |insts| == |oldInsts| && |info| == |oldInfo| && SlotsOwned(oldInsts, |oldInfo|)
    requires StepDone(insts, oldInsts, info, oldInfo, dirty, visited)
    requires k < |insts| && k !in visited && visited2 == visited + iset{k}
    requires insts[k].visibilityInfo.InvalidVisibility? ==> insts2 == insts && info2 == info
    requires insts[k].visibilityInfo.VisibilityAt? ==>
      var v := insts[k].visibilityInfo.index;
      && info2 == info[v := info[v].(visibilityMask := NewMask(info[v], dirty))]
      && insts2 == insts[k := VisitedInstance(insts[k], NewMask(info[v], dirty))]
    ensures |insts2| == |oldInsts| && |info2| == |oldInfo|
    ensures StepDone(insts2, oldInsts, info2, oldInfo, dirty, visited2)
  {
    assert insts[k] == oldInsts[k];
    if insts[k].visibilityInfo.VisibilityAt? {
      var v := insts[k].visibilityInfo.index;
      assert info[v] == oldInfo[v];
      forall i | 0 <= i < |insts| && i != k && oldInsts[i].visibilityInfo.VisibilityAt?
        ensures oldInsts[i].visibilityInfo.index != v
      {
        if i < k {
          assert oldInsts[i].visibilityInfo.index != oldInsts[k].visibilityInfo.index;
        } else {
          assert oldInsts[k].visibilityInfo.index != oldInsts[i].visibilityInfo.index;
        }
      }
    }
  }

  /** The instances `start <= i < end`. */
  predicate InSpan(start: nat, end: nat, i: nat) {
    start <= i < end
  }

  /** The instances the clusters cover. */
  ghost function Covered(clusters: seq<Range>): iset<nat> {
    iset i: nat | InClusters(clusters, i)
  }

  ghost function Span(start: nat, end: nat): iset<nat> {
    iset i | InSpan(start, end, i)
  }

  /** Every instance in `prepared` is visited and visible, in increasing order, and conversely. */
  ghost predicate PreparedExactly(prepared: seq<nat>, insts: seq<PrimitiveInstance>, visited: iset<nat>) {
    && (forall i :: i in prepared <==> 0 <= i < |insts| && i in visited && insts[i].visibilityInfo.VisibilityAt?)
    && (forall a, b :: 0 <= a < b < |prepared| ==> prepared[a] < prepared[b])
  }

  /** The step for the instances of one cluster, in order; the survivors are appended to `prepared`. */
  method VisitCluster(
    list: PrimitiveList, scratch: PrimitiveScratchBuffer, dirty: seq<DirtyRect>, range: Range,
    ghost oldInsts: seq<PrimitiveInstance>, ghost oldInfo: seq<PrimitiveVisibility>, ghost visited: iset<nat>,
    prepared0: seq<nat>)
    returns (prepared: seq<nat>)
    requires range.start <= range.end <= |list.primInstances|
    requires |list.primInstances| == |oldInsts| && |scratch.primInfo| == |oldInfo| && SlotsOwned(oldInsts, |oldInfo|)
    requires StepDone(list.primInstances, oldInsts, scratch.primInfo, oldInfo, dirty, visited)
    requires forall i :: i in visited ==> i < range.start
    requires PreparedExactly(prepared0, list.primInstances, visited)
    modifies list, scratch
    ensures |list.primInstances| == |oldInsts| && |scratch.primInfo| == |oldInfo|
    ensures StepDone(list.primInstances, oldInsts, scratch.primInfo, oldInfo, dirty, visited + Span(range.start, range.end))
    ensures PreparedExactly(prepared, list.primInstances, visited + Span(range.start, range.end))
    ensures list.clusters == old(list.clusters)
    ensures scratch.segments == old(scratch.segments) && scratch.segmentInstances == old(scratch.segmentInstances)
    ensures scratch.clipMaskInstances == old(scratch.clipMaskInstances)
  {
    prepared := prepared0;
    forall a | 0 <= a < |prepared| ensures prepared[a] < range.start {
      assert prepared[a] in prepared;
    }
    for k := range.start to range.end
      invariant |list.primInstances| == |oldInsts| && |scratch.primInfo| == |oldInfo|
      invariant StepDone(list.primInstances, oldInsts, scratch.primInfo, oldInfo, dirty, visited + Span(range.start, k))
      invariant PreparedExactly(prepared, list.primInstances, visited + Span(range.start, k))
      invariant forall a :: 0 <= a < |prepared| ==> prepared[a] < k
      invariant list.clusters == old(list.clusters)
      invariant scratch.segments == old(scratch.segments) && scratch.segmentInstances == old(scratch.segmentInstances)
      invariant scratch.clipMaskInstances == old(scratch.clipMaskInstances)
    {
      ghost var done := visited + Span(range.start, k);
      ghost var done2 := visited + Span(range.start, k + 1);
      SpanSnoc(visited, range.start, k);
      ghost var insts1 := list.primInstances;
      ghost var info1 := scratch.primInfo;
      ghost var prepared1 := prepared;
      if list.primInstances[k].visibilityInfo.VisibilityAt? {
        var survives := VisitInstance(list, scratch, k, dirty);
        if survives {
          prepared := prepared + [k];
        }
      }
      StepDoneExtend(insts1, oldInsts, info1, oldInfo, dirty, done, k, list.primInstances, scratch.primInfo, done2);
      PreparedExtend(prepared1, insts1, done, k, list.primInstances, prepared, done2);
    }
  }

  /** Visiting one more instance extends the visited set by exactly that instance. */
  lemma {:induction false} SpanSnoc(visited: iset<nat>, start: nat, k: nat)
    requires start <= k
    ensures visited + Span(start, k + 1) == visited + Span(start, k) + iset{k}
  {
  }

  /**
   * The survivors stay exactly the visited visible instances, in increasing order, when instance
   * `k` is visited after every instance already prepared.
   */
  lemma {:induction false} PreparedExtend(
    prepared: seq<nat>, insts: seq<PrimitiveInstance>, visited: iset<nat>, k: nat,
    insts2: seq<PrimitiveInstance>, prepared2: seq<nat>, visited2: iset<nat>)
    requires PreparedExactly(prepared, insts, visited)
    requires forall a :: 0 <= a < |prepared| ==> prepared[a] < k
    requires k < |insts| == |insts2| && visited2 == visited + iset{k}
    requires forall i :: 0 <= i < |insts| && i != k ==> insts2[i] == insts[i]
    requires prepared2 == if insts2[k].visibilityInfo.VisibilityAt? then prepared + [k] else prepared
    ensures PreparedExactly(prepared2, insts2, visited2)
    ensures forall a :: 0 <= a < |prepared2| ==> prepared2[a] < k + 1
  {
    forall i: nat ensures i in prepared2 <==> 0 <= i < |insts2| && i in visited2 && insts2[i].visibilityInfo.VisibilityAt? {
      if i != k && i in prepared {
        var a :| 0 <= a < |prepared| && prepared[a] == i;
      }
    }
  }

  /**
   * The visibility-mask step of `prepare_primitives`, cluster by cluster and instance by
   * instance: culled instances are skipped untouched; every other instance in a cluster has its
   * entry's mask ORed with the masks of exactly the dirty rectangles its clipped world rectangle
   * intersects and is culled when the mask stays empty. The survivors, in list order, are the
   * instances handed on for preparation.
   */
  method PreparePrimitives(list: PrimitiveList, scratch: PrimitiveScratchBuffer, dirty: seq<DirtyRect>)
    returns (prepared: seq<nat>)
    requires ClustersWellFormed(list.clusters, |list.primInstances|)
    requires SlotsOwned(list.primInstances, |scratch.primInfo|)
    modifies list, scratch
    ensures list.clusters == old(list.clusters)
    ensures |list.primInstances| == |old(list.primInstances)| && |scratch.primInfo| == |old(scratch.primInfo)|
    ensures StepDone(list.primInstances, old(list.primInstances), scratch.primInfo, old(scratch.primInfo), dirty,
      Covered(list.clusters))
    ensures PreparedExactly(prepared, list.primInstances, Covered(list.clusters))
    ensures scratch.segments == old(scratch.segments) && scratch.segmentInstances == old(scratch.segmentInstances)
    ensures scratch.clipMaskInstances == old(scratch.clipMaskInstances)
  {
    ghost var oldInsts := list.primInstances;
    ghost var oldInfo := scratch.primInfo;
    var clusters := list.clusters;
    prepared := [];
    assert Covered(clusters[..0]) == iset{};
    for c := 0 to |clusters|
      invariant list.clusters == clusters
      invariant |list.primInstances| == |oldInsts| && |scratch.primInfo| == |oldInfo|
      invariant StepDone(list.primInstances, oldInsts, scratch.primInfo, oldInfo, dirty, Covered(clusters[..c]))
      invariant PreparedExactly(prepared, list.primInstances, Covered(clusters[..c]))
      invariant scratch.segments == old(scratch.segments) && scratch.segmentInstances == old(scratch.segmentInstances)
      invariant scratch.clipMaskInstances == old(scratch.clipMaskInstances)
    {
      ghost var visited := Covered(clusters[..c]);
      forall i | i in visited ensures i < clusters[c].start {
        VisitedBeforeCluster(clusters, |oldInsts|, c, i);
      }
      prepared := VisitCluster(list, scratch, dirty, clusters[c], oldInsts, oldInfo, visited, prepared);
      forall i: nat ensures InClusters(clusters[..c + 1], i) <==> i in visited || clusters[c].start <= i < clusters[c].end {
        InClustersStep(clusters, c, i);
      }
      assert Covered(clusters[..c + 1]) == visited + Span(clusters[c].start, clusters[c].end);
    }
    assert clusters[..|clusters|] == clusters;
  }
}
